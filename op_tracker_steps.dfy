/** When a tracker reports the end or the start of its sequence, and what `to_end` breaks. */
module OpTrackerSteps {
  import opened Wrappers
  import opened Collections
  import opened Randomness
  import opened OpTracker
  import opened OpTrackerProofs
  import OpTrackerPaths

  /** How many cursor positions a finite group walks through. */
  function Span(t: Tracker): nat
    requires t.PlayOnce? || t.LoopNTimes? || t.Stretch? || t.RandomPlay?
  {
    match t
    case PlayOnce(_, ch) => |ch|
    case LoopNTimes(_, n, ch) => |ch| * n
    case Stretch(_, l, ch) => |ch| * l
    case RandomPlay(_, _, ch) => |ch|
  }

  /** A finite group reports `Ended` exactly when its current child ended on the group's
      last position; it then keeps its cursor and only records the child's new state. */
  lemma EndedOnlyAtLastPosition(t: Tracker, d: Dice)
    requires WellFormed(t) && (t.PlayOnce? || t.LoopNTimes? || t.Stretch? || t.RandomPlay?)
    ensures Moving(t) < |t.children| && MoveNext(t.children[Moving(t)], Kid(d, 0)).Done?
    ensures MoveNext(t, d).Done?
    ensures MoveNext(t, d).value.0 == Ended <==>
              MoveNext(t.children[Moving(t)], Kid(d, 0)).value.0 == Ended && t.current + 1 == Span(t)
    ensures MoveNext(t, d).value.0 == Ended ==>
              MoveNext(t, d).value.1 == WithChild(t, Moving(t), MoveNext(t.children[Moving(t)], Kid(d, 0)).value.1)
  {
    MovingInRange(t);
    ChildrenNonEmpty(t);
    MoveNextKeepsWellFormed(t, d);
    MoveNextKeepsWellFormed(t.children[Moving(t)], Kid(d, 0));
    match t
    case Stretch(cur, l, ch) => DivBelow(cur, l, |ch|);
    case RandomPlay(cur, ri, ch) => PermutationBounds(ri, |ch|);
    case _ =>
  }

  /** `InfiniteLoop` and `InfiniteRandom` never report `Ended` on a well-formed tracker and
      stay well-formed groups of the same kind. */
  lemma EndlessGroupsNeverEnd(t: Tracker, d: Dice)
    requires WellFormed(t) && (t.InfiniteLoop? || t.InfiniteRandom?)
    ensures MoveNext(t, d).Done? && MoveNext(t, d).value.0 == NextCurrent
    ensures WellFormed(MoveNext(t, d).value.1)
    ensures MoveNext(t, d).value.1.InfiniteLoop? == t.InfiniteLoop?
    ensures MoveNext(t, d).value.1.InfiniteRandom? == t.InfiniteRandom?
  {
    MoveNextKeepsWellFormed(t, d);
    MovingInRange(t);
    MoveNextKeepsWellFormed(t.children[Moving(t)], Kid(d, 0));
  }

  /** `move_next` once per answer in `ds`, collecting what each call reports. */
  function Walk(t: Tracker, ds: seq<Dice>): Exec<(seq<NextResult>, Tracker)>
    decreases |ds|
  {
    if |ds| == 0 then Done(([], t))
    else (match MoveNext(t, ds[0])
      case Panics(p) => Panics(p)
      case Done((r, t1)) =>
        match Walk(t1, ds[1..])
        case Panics(p) => Panics(p)
        case Done((rs, t2)) => Done(([r] + rs, t2)))
  }

  /** However long it is walked, an endless group keeps reporting a current song. */
  lemma {:induction false} EndlessWalkNeverEnds(t: Tracker, ds: seq<Dice>)
    requires WellFormed(t) && (t.InfiniteLoop? || t.InfiniteRandom?)
    ensures Walk(t, ds).Done?
    ensures |Walk(t, ds).value.0| == |ds|
    ensures forall k :: 0 <= k < |ds| ==> Walk(t, ds).value.0[k] == NextCurrent
    decreases |ds|
  {
    if |ds| > 0 {
      EndlessGroupsNeverEnd(t, ds[0]);
      var t1 := MoveNext(t, ds[0]).value.1;
      EndlessWalkNeverEnds(t1, ds[1..]);
      var rs := Walk(t1, ds[1..]).value.0;
      assert Walk(t, ds).value.0 == [NextCurrent] + rs;
    }
  }

  /** Repaired, a group with a first position reports `Rewound` exactly when its current
      child rewound on the group's first position; it then keeps its cursor. */
  lemma RewoundOnlyAtFirstPosition(t: Tracker, d: Dice)
    requires WellFormed(t)
    requires t.PlayOnce? || t.LoopNTimes? || t.Stretch? || t.InfiniteLoop? || t.RandomPlay?
    ensures Moving(t) < |t.children| && MoveBack(t.children[Moving(t)], Kid(d, 0), Repaired).Done?
    ensures MoveBack(t, d, Repaired).Done?
    ensures MoveBack(t, d, Repaired).value.0 == Rewound <==>
              MoveBack(t.children[Moving(t)], Kid(d, 0), Repaired).value.0 == Rewound && t.current == 0
    ensures MoveBack(t, d, Repaired).value.0 == Rewound ==>
              MoveBack(t, d, Repaired).value.1 ==
              WithChild(t, Moving(t), MoveBack(t.children[Moving(t)], Kid(d, 0), Repaired).value.1)
  {
    MovingInRange(t);
    ChildrenNonEmpty(t);
    MoveBackKeepsWellFormed(t, d);
    MoveBackKeepsWellFormed(t.children[Moving(t)], Kid(d, 0));
    match t
    case Stretch(cur, l, ch) => DivBelow(cur, l, |ch|);
    case RandomPlay(cur, ri, ch) => PermutationBounds(ri, |ch|);
    case _ =>
  }

  /** A `SingleRandom` whose child rewound makes a new selection, entered from its end, and
      still reports `Rewound`; otherwise it reports what its child reports. */
  lemma SingleRandomReselectsOnRewind(t: Tracker, d: Dice)
    requires WellFormed(t) && t.SingleRandom?
    ensures t.current < |t.children| && MoveBack(t.children[t.current], Kid(d, 0), Repaired).Done?
    ensures MoveBack(t, d, Repaired).Done?
    ensures MoveBack(t, d, Repaired).value.0 ==
              MoveBack(t.children[t.current], Kid(d, 0), Repaired).value.0
    ensures MoveBack(t.children[t.current], Kid(d, 0), Repaired).value.0 == Rewound ==>
              MoveBack(t, d, Repaired).value.1.current == PickBelow(d, |t.children|)
  {
    MoveBackKeepsWellFormed(t, d);
    MoveBackKeepsWellFormed(t.children[t.current], Kid(d, 0));
    var c := MoveBack(t.children[t.current], Kid(d, 0), Repaired).value.1;
    var t1 := WithChild(t, t.current, c);
    var j := PickBelow(d, |t.children|);
    RetreatKeepsWellFormed(WithCurrent(t1, j), j);
  }

  /** As written, `to_end` leaves a `PlayOnce` cursor one past its last child, so stepping
      back into a finished group yields a tracker whose `get_current` panics. */
  lemma StepBackIntoGroupBreaksCursor(d: Dice)
    ensures WellFormed(PlayOnce(1, [PlayOnce(0, [SinglePlay]), PlayOnce(0, [SinglePlay])]))
    ensures MoveBack(PlayOnce(1, [PlayOnce(0, [SinglePlay]), PlayOnce(0, [SinglePlay])]), d, Newer)
            == Done((BackCurrent, PlayOnce(0, [PlayOnce(1, [SinglePlay]), PlayOnce(0, [SinglePlay])])))
    ensures GetCurrent(PlayOnce(0, [PlayOnce(1, [SinglePlay]), PlayOnce(0, [SinglePlay])]), Newer)
            == Panics(IndexOutOfBounds)
  {
    var g := PlayOnce(0, [SinglePlay]);
    assert WellFormed(g) by { assert WellFormed(g.children[0]); }
    var t := PlayOnce(1, [g, g]);
    assert WellFormed(t.children[0]) && WellFormed(t.children[1]);
    assert [SinglePlay][0 := SinglePlay] == [SinglePlay];
    assert MoveBack(g, Kid(d, 0), Newer) == Done((Rewound, g));
    assert [g, g][1 := g] == [g, g];
    assert ToEnd(g, Newer) == Done(PlayOnce(1, [SinglePlay]));
    assert [g, g][0 := PlayOnce(1, [SinglePlay])] == [PlayOnce(1, [SinglePlay]), g];
  }

  /** As written, `to_end` of an `InfiniteLoop` indexes one past its children, so stepping
      back into one panics even from a well-formed tracker. */
  lemma StepBackIntoEndlessLoopPanics(d: Dice)
    ensures WellFormed(PlayOnce(1, [InfiniteLoop(0, [SinglePlay]), SinglePlay]))
    ensures MoveBack(PlayOnce(1, [InfiniteLoop(0, [SinglePlay]), SinglePlay]), d, Newer)
            == Panics(IndexOutOfBounds)
  {
    var g := InfiniteLoop(0, [SinglePlay]);
    assert WellFormed(g) by { assert WellFormed(g.children[0]); }
    var t := PlayOnce(1, [g, SinglePlay]);
    assert WellFormed(t.children[0]) && WellFormed(t.children[1]);
  }

  /** In the older tracker, `to_end` of a `RandomPlay` sets its cursor to the number of
      children and then indexes the shuffled order there, so stepping back into one panics. */
  lemma OlderRandomPlayToEndPanics(d: Dice)
    ensures WellFormed(PlayOnce(1, [RandomPlay(0, [0], [SinglePlay]), SinglePlay]))
    ensures MoveBack(PlayOnce(1, [RandomPlay(0, [0], [SinglePlay]), SinglePlay]), d, Older)
            == Panics(IndexOutOfBounds)
  {
    var g := RandomPlay(0, [0], [SinglePlay]);
    assert WellFormed(g) by { assert WellFormed(g.children[0]); }
    var t := PlayOnce(1, [g, SinglePlay]);
    assert WellFormed(t.children[0]) && WellFormed(t.children[1]);
  }

  /** `to_start` of a `PlayOnce` resets only its own cursor, so a `PlayOnce` nested in
      another inside an `InfiniteLoop` comes back still on its last child: once the loop
      reaches the second song of `[[a, b]]`, every `move_next` reports `Current` and
      leaves the tracker exactly where it was, whatever is drawn, so `a` never plays
      again. */
  lemma NestedPlayOnceStallsInLoop(d: Dice)
    ensures var t := InfiniteLoop(0, [PlayOnce(0, [PlayOnce(1, [SinglePlay, SinglePlay])])]);
            WellFormed(t) && GetCurrent(t, Newer) == Done([0, 0, 1]) &&
            MoveNext(t, d) == Done((NextCurrent, t))
  {
    var inner := PlayOnce(1, [SinglePlay, SinglePlay]);
    var outer := PlayOnce(0, [inner]);
    var t := InfiniteLoop(0, [outer]);
    assert WellFormed(inner) by { assert WellFormed(inner.children[0]) && WellFormed(inner.children[1]); }
    assert WellFormed(outer) by { assert outer.children[0] == inner; }
    assert WellFormed(t) by { assert t.children[0] == outer; }
    assert [SinglePlay, SinglePlay][1 := SinglePlay] == [SinglePlay, SinglePlay];
    assert WithChild(inner, 1, SinglePlay) == inner;
    assert MoveNext(inner, Kid(Kid(d, 0), 0)) == Done((Ended, inner));
    assert [inner][0 := inner] == [inner];
    assert WithChild(outer, 0, inner) == outer;
    assert MoveNext(outer, Kid(d, 0)) == Done((Ended, outer));
    assert [outer][0 := outer] == [outer];
    assert WithCurrent(WithChild(t, 0, outer), 0) == t;
    assert ToStart(outer, Kid(d, 1)) == Done(outer);
    assert [1] + [] == [1] && [0] + [1] == [0, 1] && [0] + [0, 1] == [0, 0, 1];
    assert GetCurrent(inner, Newer) == Prefixed(1, Done([]));
    assert GetCurrent(outer, Newer) == Prefixed(0, Done([1]));
    assert GetCurrent(t, Newer) == Prefixed(0, Done([0, 1]));
    assert MoveNext(t, d) == Advance(t, 0, Kid(d, 1));
  }

  /** Repaired, every step back leaves a tracker whose current song can be read. */
  lemma StepBackKeepsCursorReadable(t: Tracker, d: Dice)
    requires WellFormed(t)
    ensures MoveBack(t, d, Repaired).Done?
    ensures GetCurrent(MoveBack(t, d, Repaired).value.1, Repaired).Done?
  {
    MoveBackKeepsWellFormed(t, d);
    OpTrackerPaths.GetCurrentFollowsCursors(MoveBack(t, d, Repaired).value.1, Repaired);
  }

  /** `Advance` enters child `i` through `to_start` and replaces it by the result. */
  lemma AdvanceLands(t: Tracker, i: nat, d: Dice)
    requires !t.SinglePlay? && i < |t.children|
    ensures Advance(t, i, d).Done? <==> ToStart(t.children[i], d).Done?
    ensures Advance(t, i, d).Done? ==>
              Advance(t, i, d).value == (NextCurrent, WithChild(t, i, ToStart(t.children[i], d).value))
  {
  }

  /** `Retreat` enters child `i` through `to_end` and replaces it by the result. */
  lemma RetreatLands(t: Tracker, i: nat, v: Variant)
    requires !t.SinglePlay? && i < |t.children|
    ensures Retreat(t, i, v).Done? <==> ToEnd(t.children[i], v).Done?
    ensures Retreat(t, i, v).Done? ==>
              Retreat(t, i, v).value == (BackCurrent, WithChild(t, i, ToEnd(t.children[i], v).value))
  {
  }

  /** When the current child of a `PlayOnce` ends and a later child exists, the group moves
      its cursor one further, starts that child from its beginning and reports `Current`; the
      child that ended stays in its final state. */
  lemma PlayOnceAdvancesToNextChild(cur: nat, ch: seq<Tracker>, d: Dice, c: Tracker)
    requires cur + 1 < |ch|
    requires MoveNext(ch[cur], Kid(d, 0)) == Done((Ended, c))
    ensures var r := MoveNext(PlayOnce(cur, ch), d);
            var s := ToStart(ch[cur + 1], Kid(d, 1));
            (r.Done? <==> s.Done?) &&
            (r.Done? ==> r.value == (NextCurrent, PlayOnce(cur + 1, ch[cur := c][cur + 1 := s.value])))
  {
    var t := PlayOnce(cur, ch);
    PlayOnceMovesOn(t, d, c);
    var t2 := WithCurrent(WithChild(t, cur, c), cur + 1);
    AdvanceLands(t2, cur + 1, Kid(d, 1));
    assert t2 == PlayOnce(cur + 1, ch[cur := c]);
    assert t2.children[cur + 1] == ch[cur + 1];
  }

  /** The unfolding of the `PlayOnce` arm of `move_next` when a child other than the last
      ended. */
  lemma PlayOnceMovesOn(t: Tracker, d: Dice, c: Tracker)
    requires t.PlayOnce? && t.current + 1 < |t.children|
    requires MoveNext(t.children[t.current], Kid(d, 0)) == Done((Ended, c))
    ensures MoveNext(t, d)
            == Advance(WithCurrent(WithChild(t, t.current, c), t.current + 1), t.current + 1, Kid(d, 1))
  {
  }

  /** When the current child of an `InfiniteLoop` ends, the loop moves its cursor to the
      next child modulo the number of children, starts that child from its beginning (the
      child that ended, in a loop of one) and reports `Current`. */
  lemma InfiniteLoopAdvances(cur: nat, ch: seq<Tracker>, d: Dice, c: Tracker)
    requires cur < |ch|
    requires MoveNext(ch[cur], Kid(d, 0)) == Done((Ended, c))
    ensures var j := (cur + 1) % |ch|;
            var r := MoveNext(InfiniteLoop(cur, ch), d);
            var s := ToStart(ch[cur := c][j], Kid(d, 1));
            (r.Done? <==> s.Done?) &&
            (r.Done? ==> r.value == (NextCurrent, InfiniteLoop(j, ch[cur := c][j := s.value])))
  {
    var j := (cur + 1) % |ch|;
    assert j < |ch|;
    var t2 := InfiniteLoop(j, ch[cur := c]);
    assert t2 == WithCurrent(WithChild(InfiniteLoop(cur, ch), cur, c), j);
    assert MoveNext(InfiniteLoop(cur, ch), d) == Advance(t2, j, Kid(d, 1));
    AdvanceLands(t2, j, Kid(d, 1));
  }

  /** When the last child of an `InfiniteLoop` ends, the loop wraps its cursor to the first
      child and starts it again: an `InfiniteLoop` never reports `Ended`. */
  lemma InfiniteLoopWrapsToFirstChild(ch: seq<Tracker>, d: Dice, c: Tracker)
    requires |ch| > 0
    requires MoveNext(ch[|ch| - 1], Kid(d, 0)) == Done((Ended, c))
    ensures var r := MoveNext(InfiniteLoop(|ch| - 1, ch), d);
            var s := ToStart(ch[|ch| - 1 := c][0], Kid(d, 1));
            (r.Done? <==> s.Done?) &&
            (r.Done? ==> r.value == (NextCurrent, InfiniteLoop(0, ch[|ch| - 1 := c][0 := s.value])))
  {
    var t2 := InfiniteLoop(0, ch[|ch| - 1 := c]);
    assert t2 == WithCurrent(WithChild(InfiniteLoop(|ch| - 1, ch), |ch| - 1, c), 0);
    assert (|ch| - 1 + 1) % |ch| == 0;
    assert MoveNext(InfiniteLoop(|ch| - 1, ch), d) == Advance(t2, 0, Kid(d, 1));
    AdvanceLands(t2, 0, Kid(d, 1));
  }

  /** When the current child of an `InfiniteLoop` rewinds and an earlier child exists, the
      loop moves its cursor one back, enters that child from its end and reports `Current`. */
  lemma InfiniteLoopRetreats(cur: nat, ch: seq<Tracker>, d: Dice, v: Variant, c: Tracker)
    requires 0 < cur < |ch|
    requires MoveBack(ch[cur], Kid(d, 0), v) == Done((Rewound, c))
    ensures var r := MoveBack(InfiniteLoop(cur, ch), d, v);
            var e := ToEnd(ch[cur - 1], v);
            (r.Done? <==> e.Done?) &&
            (r.Done? ==> r.value == (BackCurrent, InfiniteLoop(cur - 1, ch[cur := c][cur - 1 := e.value])))
  {
    var t2 := InfiniteLoop(cur - 1, ch[cur := c]);
    assert t2 == WithCurrent(WithChild(InfiniteLoop(cur, ch), cur, c), cur - 1);
    assert MoveBack(InfiniteLoop(cur, ch), d, v) == Retreat(t2, cur - 1, v);
    RetreatLands(t2, cur - 1, v);
  }

  /** When the current child of a `PlayOnce` rewinds and an earlier child exists, the group
      moves its cursor one back, enters that child from its end and reports `Current`. */
  lemma PlayOnceRetreatsToPreviousChild(cur: nat, ch: seq<Tracker>, d: Dice, v: Variant, c: Tracker)
    requires 0 < cur < |ch|
    requires MoveBack(ch[cur], Kid(d, 0), v) == Done((Rewound, c))
    ensures var r := MoveBack(PlayOnce(cur, ch), d, v);
            var e := ToEnd(ch[cur - 1], v);
            (r.Done? <==> e.Done?) &&
            (r.Done? ==> r.value == (BackCurrent, PlayOnce(cur - 1, ch[cur := c][cur - 1 := e.value])))
  {
    var t2 := PlayOnce(cur - 1, ch[cur := c]);
    assert t2 == WithCurrent(WithChild(PlayOnce(cur, ch), cur, c), cur - 1);
    assert MoveBack(PlayOnce(cur, ch), d, v) == Retreat(t2, cur - 1, v);
    RetreatLands(t2, cur - 1, v);
  }
}
