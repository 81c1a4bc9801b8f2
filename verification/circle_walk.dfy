/** The walk around a note circle that finds the end letter of an interval,
    and the counts of lettered and empty slots it lands on. Everything here
    is stated for any circle of NoteCount slots holding 7 lettered and 12
    empty slots with no three empty slots in a row; the circle of the
    calculator is one of them (NoteCircle.NotesIsCircle). */
module CircleWalk {
  import opened Diatonic
  import opened IntervalTables

  /** Brings a position that stepped one slot off either end of the circle
      back onto it: below 0 add the circle size, at or past it subtract it. */
  function Wrap(position: int): (r: int)
    ensures -NoteCount <= position < 2 * NoteCount ==> r == position % NoteCount
  {
    var p := if position < 0 then NoteCount + position else position;
    if p >= NoteCount then p - NoteCount else p
  }

  predicate IsLettered(circle: seq<string>, position: int)
    requires 0 <= position < |circle|
  {
    circle[position] != ""
  }

  /** 1 when slot `x` is of the kind asked for (empty or lettered), else 0. */
  function IsKind(circle: seq<string>, x: int, empty: bool): (m: nat)
    requires 0 <= x < |circle|
    ensures m == 1 <==> (circle[x] == "") == empty
    ensures m <= 1
  {
    if (circle[x] == "") == empty then 1 else 0
  }

  /** Slots strictly before `x` that are empty (`empty`) or lettered (`!empty`). */
  function CountBefore(circle: seq<string>, x: int, empty: bool): (n: nat)
    requires 0 <= x <= |circle|
    ensures n <= x
  {
    if x == 0 then 0 else CountBefore(circle, x - 1, empty) + IsKind(circle, x - 1, empty)
  }

  /** How many slots of each kind one full turn of the circle holds. */
  function KindTotal(empty: bool): int {
    if empty then OctaveSemitones else LetterCount
  }

  /** One of slot `x` and the two after it (cyclically) is lettered. */
  predicate LetterWithinThree(circle: seq<string>, x: int)
    requires |circle| == NoteCount && 0 <= x < NoteCount
  {
    IsLettered(circle, x) || IsLettered(circle, Wrap(x + 1)) || IsLettered(circle, Wrap(Wrap(x + 1) + 1))
  }

  /** No three consecutive slots (cyclically) are all empty. */
  predicate NoThreeEmpty(circle: seq<string>)
    requires |circle| == NoteCount
  {
    forall x :: 0 <= x < NoteCount ==> LetterWithinThree(circle, x)
  }

  /** NoteCount slots, 12 of them empty and 7 lettered. */
  predicate HasOctaveTotals(circle: seq<string>) {
    && |circle| == NoteCount
    && CountBefore(circle, NoteCount, true) == KindTotal(true)
    && CountBefore(circle, NoteCount, false) == KindTotal(false)
  }

  /** The shape of a note circle: NoteCount slots, 12 empty ones and 7
      lettered ones, and no gap of three empty slots. */
  predicate IsCircle(circle: seq<string>) {
    HasOctaveTotals(circle) && NoThreeEmpty(circle)
  }

  /** Steps until the walk next lands on a lettered slot, at most three. */
  function StepsToLetter(circle: seq<string>, position: int, step: int): (n: nat)
    requires |circle| == NoteCount && 0 <= position < NoteCount && (step == 1 || step == -1)
    ensures 1 <= n <= 3
  {
    var a := Wrap(position + step);
    if IsLettered(circle, a) then 1
    else if IsLettered(circle, Wrap(a + step)) then 2
    else 3
  }

  /** Between two lettered slots lie at most two empty ones, in either direction. */
  lemma NoThreeEmptySlots(circle: seq<string>, position: int, step: int)
    requires IsCircle(circle) && 0 <= position < NoteCount && (step == 1 || step == -1)
    ensures var a := Wrap(position + step);
            var b := Wrap(a + step);
            IsLettered(circle, a) || IsLettered(circle, b) || IsLettered(circle, Wrap(b + step))
  {
    var a := Wrap(position + step);
    var b := Wrap(a + step);
    var c := Wrap(b + step);
    if step == 1 {
      assert LetterWithinThree(circle, a);
    } else {
      assert Wrap(c + 1) == b && Wrap(b + 1) == a;
      assert LetterWithinThree(circle, c);
    }
  }

  /** Stepping onto an empty slot brings the next lettered slot one step closer. */
  lemma StepsToLetterShrinks(circle: seq<string>, position: int, step: int)
    requires IsCircle(circle) && 0 <= position < NoteCount && (step == 1 || step == -1)
    requires !IsLettered(circle, Wrap(position + step))
    ensures StepsToLetter(circle, Wrap(position + step), step) < StepsToLetter(circle, position, step)
  {
    NoThreeEmptySlots(circle, position, step);
  }

  /** The state of the walk: current slot, slots moved, degree reached. */
  datatype WalkState = WalkState(position: int, distance: nat, degree: int)

  /** The loop of the construction: step one slot at a time, wrapping at the
      ends, and count a degree on each lettered slot landed on, until the
      target degree is reached. */
  function Walk(circle: seq<string>, position: int, step: int, distance: nat, degree: int, target: int): (w: WalkState)
    requires IsCircle(circle) && 0 <= position < NoteCount && (step == 1 || step == -1)
    requires degree <= target
    requires degree == target ==> IsLettered(circle, position)
    ensures 0 <= w.position < NoteCount && IsLettered(circle, w.position)
    ensures w.degree == target
    ensures w.distance >= distance
    decreases target - degree, StepsToLetter(circle, position, step)
  {
    if degree == target then WalkState(position, distance, degree)
    else
      var next := Wrap(position + step);
      if IsLettered(circle, next) then Walk(circle, next, step, distance + 1, degree + 1, target)
      else
        StepsToLetterShrinks(circle, position, step);
        Walk(circle, next, step, distance + 1, degree, target)
  }

  /** Slots of the given kind among the first `n` slots landed on by a walk
      from `start` in the direction of `step`. */
  function Crossed(circle: seq<string>, empty: bool, start: int, step: int, n: nat): (k: nat)
    requires |circle| == NoteCount
    ensures k <= n
  {
    if n == 0 then 0
    else Crossed(circle, empty, start, step, n - 1) + IsKind(circle, Moved(start, step, n) % NoteCount, empty)
  }

  /** Every slot landed on is either empty or lettered. */
  lemma {:induction false} CrossedPartition(circle: seq<string>, start: int, step: int, n: nat)
    requires |circle| == NoteCount
    ensures Crossed(circle, true, start, step, n) + Crossed(circle, false, start, step, n) == n
  {
    if n > 0 {
      CrossedPartition(circle, start, step, n - 1);
    }
  }

  /** Slots of the given kind below the unwrapped position `u`, counting the
      circle as repeating forever in both directions. */
  function Tally(circle: seq<string>, u: int, empty: bool): int
    requires |circle| == NoteCount
  {
    KindTotal(empty) * (u / NoteCount) + CountBefore(circle, u % NoteCount, empty)
  }

  /** Moving the unwrapped position up by one, from `lo` to `hi`, adds the
      slot it leaves behind. */
  lemma TallyStep(circle: seq<string>, empty: bool, at: int, lo: int, hi: int)
    requires HasOctaveTotals(circle)
    requires lo == at && hi == at + 1
    ensures Tally(circle, hi, empty) == Tally(circle, lo, empty) + IsKind(circle, at % NoteCount, empty)
  {
    var q, r := at / NoteCount, at % NoteCount;
    if r < NoteCount - 1 {
      DivModOf19(hi, q, r + 1);
    } else {
      DivModOf19(hi, q + 1, 0);
    }
  }

  /** The slots landed on going up from `start` are the unwrapped positions
      start+1 .. start+n, so a difference of tallies counts them. */
  lemma {:induction false} CrossedUpAsTally(circle: seq<string>, empty: bool, start: int, n: nat)
    requires HasOctaveTotals(circle)
    ensures Crossed(circle, empty, start, 1, n) == Tally(circle, start + n + 1, empty) - Tally(circle, start + 1, empty)
  {
    if n > 0 {
      CrossedUpAsTally(circle, empty, start, n - 1);
      TallyStep(circle, empty, Moved(start, 1, n), start + (n - 1) + 1, start + n + 1);
    }
  }

  /** The slots landed on going down from `start` are the unwrapped positions
      start-n .. start-1, so a difference of tallies counts them. */
  lemma {:induction false} CrossedDownAsTally(circle: seq<string>, empty: bool, start: int, n: nat)
    requires HasOctaveTotals(circle)
    ensures Crossed(circle, empty, start, -1, n) == Tally(circle, start, empty) - Tally(circle, start - n, empty)
  {
    if n > 0 {
      CrossedDownAsTally(circle, empty, start, n - 1);
      TallyStep(circle, empty, Moved(start, -1, n), start - n, start - (n - 1));
    }
  }

  /** Throughout the walk the position is `start` moved `distance` slots,
      and the degree counts the lettered slots landed on. */
  lemma {:induction false} WalkTracksCrossings(circle: seq<string>, start: int, position: int, step: int, distance: nat, degree: int, target: int)
    requires IsCircle(circle) && 0 <= position < NoteCount && (step == 1 || step == -1)
    requires degree <= target
    requires degree == target ==> IsLettered(circle, position)
    requires position == Moved(start, step, distance) % NoteCount
    requires degree - 1 == Crossed(circle, false, start, step, distance)
    ensures var w := Walk(circle, position, step, distance, degree, target);
            w.position == Moved(start, step, w.distance) % NoteCount
            && w.degree - 1 == Crossed(circle, false, start, step, w.distance)
    decreases target - degree, StepsToLetter(circle, position, step)
  {
    if degree != target {
      var next := Wrap(position + step);
      var degree' := if IsLettered(circle, next) then degree + 1 else degree;
      WalkStep(circle, start, position, step, distance, degree, target);
      if !IsLettered(circle, next) {
        StepsToLetterShrinks(circle, position, step);
      }
      WalkTracksCrossings(circle, start, next, step, distance + 1, degree', target);
    }
  }

  /** One step of the walk keeps the invariant of WalkTracksCrossings. */
  lemma WalkStep(circle: seq<string>, start: int, position: int, step: int, distance: nat, degree: int, target: int)
    requires IsCircle(circle) && 0 <= position < NoteCount && (step == 1 || step == -1)
    requires degree < target
    requires position == Moved(start, step, distance) % NoteCount
    requires degree - 1 == Crossed(circle, false, start, step, distance)
    ensures var next := Wrap(position + step);
            var degree' := if IsLettered(circle, next) then degree + 1 else degree;
            && 0 <= next < NoteCount
            && next == Moved(start, step, distance + 1) % NoteCount
            && degree' - 1 == Crossed(circle, false, start, step, distance + 1)
            && Walk(circle, position, step, distance, degree, target) == Walk(circle, next, step, distance + 1, degree', target)
  {
    ModStep(Moved(start, step, distance), step);
  }

  lemma ModStep(a: int, step: int)
    requires step == 1 || step == -1
    ensures (a % NoteCount + step) % NoteCount == (a + step) % NoteCount
  {
    var q := a / NoteCount;
    assert a == NoteCount * q + a % NoteCount;
    assert (a + step) - (a % NoteCount + step) == NoteCount * q;
  }

  /** Euclidean division by NoteCount is determined by quotient and remainder. */
  lemma DivModOf19(t: int, q: int, r: int)
    requires t == NoteCount * q + r && 0 <= r < NoteCount
    ensures t / NoteCount == q && t % NoteCount == r
  {
  }

  /** Going up `n` slots from slot `p` crosses a full circle per lap plus
      the slots after `p` up to and including the slot reached. */
  lemma CrossedUpBetween(circle: seq<string>, empty: bool, p: int, n: nat)
    requires HasOctaveTotals(circle) && 0 <= p < NoteCount
    ensures var q := (p + n) % NoteCount;
            Crossed(circle, empty, p, 1, n)
            == KindTotal(empty) * ((p + n) / NoteCount) + CountBefore(circle, q, empty) + IsKind(circle, q, empty)
               - CountBefore(circle, p, empty) - IsKind(circle, p, empty)
  {
    CrossedUpAsTally(circle, empty, p, n);
    TallyAbove(circle, empty, p + n, p + n + 1);
    TallyAbove(circle, empty, p, p + 1);
    DivModOf19(p, 0, p);
  }

  /** The tally just above the unwrapped position `u`. */
  lemma TallyAbove(circle: seq<string>, empty: bool, u: int, above: int)
    requires HasOctaveTotals(circle) && above == u + 1
    ensures Tally(circle, above, empty)
            == KindTotal(empty) * (u / NoteCount) + CountBefore(circle, u % NoteCount, empty) + IsKind(circle, u % NoteCount, empty)
  {
    TallyStep(circle, empty, u, u, above);
  }

  /** Going down `n` slots from slot `p` crosses a full circle per lap plus
      the slots from the slot reached up to just before `p`. */
  lemma CrossedDownBetween(circle: seq<string>, empty: bool, p: int, n: nat)
    requires HasOctaveTotals(circle) && 0 <= p < NoteCount
    ensures var q := (p - n) % NoteCount;
            Crossed(circle, empty, p, -1, n)
            == CountBefore(circle, p, empty) - KindTotal(empty) * ((p - n) / NoteCount) - CountBefore(circle, q, empty)
  {
    var q := (p - n) % NoteCount;
    CrossedDownAsTally(circle, empty, p, n);
    DivModOf19(p, 0, p);
    assert Tally(circle, p, empty) == CountBefore(circle, p, empty);
    assert Tally(circle, p - n, empty) == KindTotal(empty) * ((p - n) / NoteCount) + CountBefore(circle, q, empty);
  }

  /** `pitches` gives, for the k-th lettered slot, the number of empty slots
      before it: the circle is laid out like the letters at those pitches. */
  predicate PitchesMatch(circle: seq<string>, pitches: seq<int>)
    requires |circle| == NoteCount
  {
    && |pitches| == LetterCount
    && forall x :: 0 <= x < NoteCount && IsLettered(circle, x) ==>
         CountBefore(circle, x, false) < LetterCount && pitches[CountBefore(circle, x, false)] == CountBefore(circle, x, true)
  }

  /** Going up `n` slots from a lettered slot `p` to a lettered slot,
      having landed on `degree - 1` lettered slots, moves `degree - 1`
      letters up and crosses the semitones between the two letters. */
  lemma LetterToLetterUp(circle: seq<string>, pitches: seq<int>, p: int, n: nat, degree: int)
    requires IsCircle(circle) && PitchesMatch(circle, pitches)
    requires 0 <= p < NoteCount && IsLettered(circle, p) && IsLettered(circle, (p + n) % NoteCount)
    requires degree - 1 == Crossed(circle, false, p, 1, n)
    ensures var i := CountBefore(circle, p, false);
            && i < LetterCount
            && CountBefore(circle, (p + n) % NoteCount, false) == Moved(i, 1, degree - 1) % LetterCount
            && n - (degree - 1) == SpanIn(pitches, i, degree, 1)
  {
    var q := (p + n) % NoteCount;
    CrossedPartition(circle, p, 1, n);
    CrossedUpBetween(circle, false, p, n);
    CrossedUpBetween(circle, true, p, n);
    var i, j := CountBefore(circle, p, false), CountBefore(circle, q, false);
    assert pitches[i] == CountBefore(circle, p, true);
    assert pitches[j] == CountBefore(circle, q, true);
    SpanFromLaps(pitches, i, j, (p + n) / NoteCount, degree, 1);
  }

  /** Going down `n` slots from a lettered slot `p` to a lettered slot,
      having landed on `degree - 1` lettered slots, moves `degree - 1`
      letters down and crosses the semitones between the two letters. */
  lemma LetterToLetterDown(circle: seq<string>, pitches: seq<int>, p: int, n: nat, degree: int)
    requires IsCircle(circle) && PitchesMatch(circle, pitches)
    requires 0 <= p < NoteCount && IsLettered(circle, p) && IsLettered(circle, (p - n) % NoteCount)
    requires degree - 1 == Crossed(circle, false, p, -1, n)
    ensures var i := CountBefore(circle, p, false);
            && i < LetterCount
            && CountBefore(circle, (p - n) % NoteCount, false) == Moved(i, -1, degree - 1) % LetterCount
            && n - (degree - 1) == SpanIn(pitches, i, degree, -1)
  {
    var q := (p - n) % NoteCount;
    CrossedPartition(circle, p, -1, n);
    CrossedDownBetween(circle, false, p, n);
    CrossedDownBetween(circle, true, p, n);
    var i, j := CountBefore(circle, p, false), CountBefore(circle, q, false);
    assert pitches[i] == CountBefore(circle, p, true);
    assert pitches[j] == CountBefore(circle, q, true);
    SpanFromLaps(pitches, i, j, -((p - n) / NoteCount), degree, -1);
  }

  /** Going `n` slots from a lettered slot `p` to a lettered slot, having
      landed on `degree - 1` lettered slots, moves `degree - 1` letters and
      crosses the semitones between the two letters. */
  lemma LetterToLetter(circle: seq<string>, pitches: seq<int>, p: int, step: int, n: nat, degree: int)
    requires IsCircle(circle) && PitchesMatch(circle, pitches)
    requires 0 <= p < NoteCount && IsLettered(circle, p) && (step == 1 || step == -1)
    requires IsLettered(circle, Moved(p, step, n) % NoteCount)
    requires degree - 1 == Crossed(circle, false, p, step, n)
    ensures var i := CountBefore(circle, p, false);
            && i < LetterCount
            && CountBefore(circle, Moved(p, step, n) % NoteCount, false) == Moved(i, step, degree - 1) % LetterCount
            && n - (degree - 1) == Crossed(circle, true, p, step, n)
            && n - (degree - 1) == SpanIn(pitches, i, degree, step)
  {
    CrossedPartition(circle, p, step, n);
    if step == 1 {
      assert Moved(p, step, n) == p + n;
      LetterToLetterUp(circle, pitches, p, n, degree);
    } else {
      assert Moved(p, step, n) == p - n;
      LetterToLetterDown(circle, pitches, p, n, degree);
    }
  }

  /** The walk from a lettered slot with target degree `degree` ends on the
      letter `degree - 1` letters away in its direction; the slots it moved
      beyond the letters it counted are the empty slots it crossed, and they
      number the semitones between the two letters. */
  lemma WalkFromLetter(circle: seq<string>, pitches: seq<int>, p: int, step: int, degree: int)
    requires IsCircle(circle) && PitchesMatch(circle, pitches)
    requires 0 <= p < NoteCount && IsLettered(circle, p) && (step == 1 || step == -1)
    requires 1 <= degree
    ensures var w := Walk(circle, p, step, 0, 1, degree);
            var i := CountBefore(circle, p, false);
            && i < LetterCount
            && CountBefore(circle, w.position, false) == Moved(i, step, degree - 1) % LetterCount
            && w.distance - (degree - 1) == Crossed(circle, true, p, step, w.distance)
            && w.distance - (degree - 1) == SpanIn(pitches, i, degree, step)
  {
    var w := Walk(circle, p, step, 0, 1, degree);
    WalkTracksCrossings(circle, p, p, step, 0, 1, degree);
    LetterToLetter(circle, pitches, p, step, w.distance, degree);
  }
}
