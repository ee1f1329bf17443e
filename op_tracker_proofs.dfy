/** What the tracker keeps and what it breaks. */
module OpTrackerProofs {
  import opened Wrappers
  import opened Collections
  import opened Randomness
  import opened OpTracker

  /** Each cursor names a position its node has. */
  predicate CursorInRange(t: Tracker)
    requires !t.SinglePlay?
  {
    match t
    case PlayOnce(cur, ch) => cur < |ch|
    case LoopNTimes(cur, n, ch) => cur < |ch| * n
    case Stretch(cur, l, ch) => cur < |ch| * l
    case InfiniteLoop(cur, ch) => cur < |ch|
    case RandomPlay(cur, ri, ch) => multiset(ri) == multiset(Range(|ch|)) && cur < |ch|
    case SingleRandom(cur, ch) => cur < |ch|
    case InfiniteRandom(cur, ch) => cur < |ch|
  }

  /** A tracker whose every cursor names an existing position. */
  predicate WellFormed(t: Tracker)
  {
    t.SinglePlay? ||
    (CursorInRange(t) && forall i | 0 <= i < |t.children| :: WellFormed(t.children[i]))
  }

  /** The facts about a shuffled index list that the indexing needs. */
  lemma PermutationBounds(ri: seq<nat>, n: nat)
    requires multiset(ri) == multiset(Range(n))
    ensures |ri| == n
    ensures forall k :: 0 <= k < |ri| ==> ri[k] < n
  {
    RangeMembers(n);
    assert |ri| == |multiset(ri)|;
    forall k | 0 <= k < |ri| ensures ri[k] < n { assert ri[k] in multiset(ri); }
  }

  lemma ChildrenNonEmpty(t: Tracker)
    requires !t.SinglePlay? && CursorInRange(t)
    ensures |t.children| > 0
  {
    if t.LoopNTimes? || t.Stretch? {
      if |t.children| == 0 { assert false; }
    }
  }

  /** Replacing a child by a well-formed one keeps the node well-formed. */
  lemma WithChildWellFormed(t: Tracker, i: nat, c: Tracker)
    requires !t.SinglePlay? && WellFormed(t) && i < |t.children| && WellFormed(c)
    ensures WellFormed(WithChild(t, i, c))
  {
    var r := WithChild(t, i, c);
    assert forall j | 0 <= j < |r.children| :: WellFormed(r.children[j]) by {
      forall j | 0 <= j < |r.children| ensures WellFormed(r.children[j]) {
        if j != i { assert r.children[j] == t.children[j]; }
      }
    }
  }

  /** `to_start` never panics on a well-formed tracker, and leaves it well-formed. */
  lemma {:induction false} ToStartKeepsWellFormed(t: Tracker, d: Dice)
    requires WellFormed(t)
    ensures ToStart(t, d).Done? && WellFormed(ToStart(t, d).value)
  {
    if !t.SinglePlay? {
      ChildrenNonEmpty(t);
    }
    match t
    case SinglePlay =>
    case PlayOnce(_, ch) =>
    case LoopNTimes(_, n, ch) =>
    case Stretch(_, l, ch) =>
    case InfiniteLoop(_, ch) =>
      ToStartKeepsWellFormed(ch[0], Kid(d, 0));
      WithChildWellFormed(InfiniteLoop(0, ch), 0, ToStart(ch[0], Kid(d, 0)).value);
    case RandomPlay(_, ri, ch) =>
      var order := Shuffle(d.order, ri);
      PermutationBounds(order, |ch|);
      ToStartKeepsWellFormed(ch[order[0]], Kid(d, 0));
      WithChildWellFormed(RandomPlay(0, order, ch), order[0], ToStart(ch[order[0]], Kid(d, 0)).value);
    case SingleRandom(_, ch) =>
      var j := PickBelow(d, |ch|);
      ToStartKeepsWellFormed(ch[j], Kid(d, 0));
      WithChildWellFormed(SingleRandom(j, ch), j, ToStart(ch[j], Kid(d, 0)).value);
    case InfiniteRandom(_, ch) =>
      var j := PickBelow(d, |ch|);
      ToStartKeepsWellFormed(ch[j], Kid(d, 0));
      WithChildWellFormed(InfiniteRandom(j, ch), j, ToStart(ch[j], Kid(d, 0)).value);
  }

  /** Entering child `i` from its start never panics when the new cursor is in range. */
  lemma AdvanceKeepsWellFormed(t: Tracker, i: nat, d: Dice)
    requires !t.SinglePlay? && WellFormed(t) && i < |t.children|
    ensures Advance(t, i, d).Done? && WellFormed(Advance(t, i, d).value.1)
  {
    ToStartKeepsWellFormed(t.children[i], d);
    WithChildWellFormed(t, i, ToStart(t.children[i], d).value);
  }

  /** `move_next` never panics on a well-formed tracker, and leaves it well-formed. */
  lemma {:induction false} MoveNextKeepsWellFormed(t: Tracker, d: Dice)
    requires WellFormed(t)
    ensures MoveNext(t, d).Done? && WellFormed(MoveNext(t, d).value.1)
  {
    if !t.SinglePlay? {
      ChildrenNonEmpty(t);
      MovingInRange(t);
      var i := Moving(t);
      MoveNextKeepsWellFormed(t.children[i], Kid(d, 0));
      var c := MoveNext(t.children[i], Kid(d, 0)).value.1;
      WithChildWellFormed(t, i, c);
      match t
      case PlayOnce(_, _) => NextPlayOnce(t, d);
      case LoopNTimes(_, _, _) => NextLoopNTimes(t, d);
      case Stretch(_, _, _) => NextStretch(t, d);
      case InfiniteLoop(_, _) => NextInfiniteLoop(t, d);
      case RandomPlay(_, _, _) => NextRandomPlay(t, d);
      case SingleRandom(_, _) =>
      case InfiniteRandom(_, _) => NextInfiniteRandom(t, d);
    }
  }

  /** The child whose song is the current one. */
  function Moving(t: Tracker): nat
    requires !t.SinglePlay?
  {
    match t
    case LoopNTimes(cur, _, ch) => if |ch| == 0 then 0 else cur % |ch|
    case Stretch(cur, l, ch) => if l == 0 then 0 else cur / l
    case RandomPlay(cur, ri, ch) => if cur < |ri| then ri[cur] else 0
    case PlayOnce(cur, _) => cur
    case InfiniteLoop(cur, _) => cur
    case SingleRandom(cur, _) => cur
    case InfiniteRandom(cur, _) => cur
  }

  lemma MovingInRange(t: Tracker)
    requires !t.SinglePlay? && WellFormed(t)
    ensures Moving(t) < |t.children|
  {
    ChildrenNonEmpty(t);
    match t
    case Stretch(cur, l, ch) => DivBelow(cur, l, |ch|);
    case RandomPlay(cur, ri, ch) => PermutationBounds(ri, |ch|);
    case _ =>
  }

  /** What every arm below may assume: the current child moved without panicking and the
      node with that child replaced is well-formed. */
  predicate ChildMoved(t: Tracker, d: Dice)
    requires !t.SinglePlay? && WellFormed(t)
  {
    var i := Moving(t);
    i < |t.children| &&
    MoveNext(t.children[i], Kid(d, 0)).Done? &&
    WellFormed(WithChild(t, i, MoveNext(t.children[i], Kid(d, 0)).value.1))
  }

  lemma NextPlayOnce(t: Tracker, d: Dice)
    requires t.PlayOnce? && WellFormed(t) && ChildMoved(t, d)
    ensures MoveNext(t, d).Done? && WellFormed(MoveNext(t, d).value.1)
  {
    var cur := t.current;
    var t1 := WithChild(t, cur, MoveNext(t.children[cur], Kid(d, 0)).value.1);
    if cur + 1 < |t.children| {
      AdvanceKeepsWellFormed(WithCurrent(t1, cur + 1), cur + 1, Kid(d, 1));
    }
  }

  lemma NextLoopNTimes(t: Tracker, d: Dice)
    requires t.LoopNTimes? && WellFormed(t) && ChildMoved(t, d)
    ensures MoveNext(t, d).Done? && WellFormed(MoveNext(t, d).value.1)
  {
    var cur, ch := t.current, t.children;
    ChildrenNonEmpty(t);
    var t1 := WithChild(t, cur % |ch|, MoveNext(ch[cur % |ch|], Kid(d, 0)).value.1);
    if cur + 1 < |ch| * t.totalLoops {
      AdvanceKeepsWellFormed(WithCurrent(t1, cur + 1), (cur + 1) % |ch|, Kid(d, 1));
    }
  }

  lemma NextStretch(t: Tracker, d: Dice)
    requires t.Stretch? && WellFormed(t) && ChildMoved(t, d)
    ensures MoveNext(t, d).Done? && WellFormed(MoveNext(t, d).value.1)
  {
    var cur, l, ch := t.current, t.length, t.children;
    DivBelow(cur, l, |ch|);
    var t1 := WithChild(t, cur / l, MoveNext(ch[cur / l], Kid(d, 0)).value.1);
    if cur + 1 < |ch| * l {
      DivBelow(cur + 1, l, |ch|);
      AdvanceKeepsWellFormed(WithCurrent(t1, cur + 1), (cur + 1) / l, Kid(d, 1));
    }
  }

  lemma NextInfiniteLoop(t: Tracker, d: Dice)
    requires t.InfiniteLoop? && WellFormed(t) && ChildMoved(t, d)
    ensures MoveNext(t, d).Done? && WellFormed(MoveNext(t, d).value.1)
  {
    var cur, ch := t.current, t.children;
    var t1 := WithChild(t, cur, MoveNext(ch[cur], Kid(d, 0)).value.1);
    AdvanceKeepsWellFormed(WithCurrent(t1, (cur + 1) % |ch|), (cur + 1) % |ch|, Kid(d, 1));
  }

  lemma NextRandomPlay(t: Tracker, d: Dice)
    requires t.RandomPlay? && WellFormed(t) && ChildMoved(t, d)
    ensures MoveNext(t, d).Done? && WellFormed(MoveNext(t, d).value.1)
  {
    var cur, ri, ch := t.current, t.randomizedIndices, t.children;
    PermutationBounds(ri, |ch|);
    var t1 := WithChild(t, ri[cur], MoveNext(ch[ri[cur]], Kid(d, 0)).value.1);
    if cur + 1 < |ch| {
      AdvanceKeepsWellFormed(WithCurrent(t1, cur + 1), ri[cur + 1], Kid(d, 1));
    }
  }

  lemma NextInfiniteRandom(t: Tracker, d: Dice)
    requires t.InfiniteRandom? && WellFormed(t) && ChildMoved(t, d)
    ensures MoveNext(t, d).Done? && WellFormed(MoveNext(t, d).value.1)
  {
    var cur, ch := t.current, t.children;
    var t1 := WithChild(t, cur, MoveNext(ch[cur], Kid(d, 0)).value.1);
    var j := PickBelow(d, |ch|);
    AdvanceKeepsWellFormed(WithCurrent(t1, j), j, Kid(d, 1));
  }

  /** With `to_end` repaired, it never panics on a well-formed tracker and leaves it
      well-formed. */
  lemma {:induction false} ToEndKeepsWellFormed(t: Tracker)
    requires WellFormed(t)
    ensures ToEnd(t, Repaired).Done? && WellFormed(ToEnd(t, Repaired).value)
  {
    if !t.SinglePlay? {
      ChildrenNonEmpty(t);
    }
    match t
    case SinglePlay =>
    case PlayOnce(_, ch) =>
    case LoopNTimes(_, n, ch) => assert n * |ch| == |ch| * n;
    case Stretch(_, l, ch) => assert l * |ch| == |ch| * l;
    case InfiniteLoop(_, ch) =>
      var last := |ch| - 1;
      ToEndKeepsWellFormed(ch[last]);
      WithChildWellFormed(InfiniteLoop(last, ch), last, ToEnd(ch[last], Repaired).value);
    case RandomPlay(_, ri, ch) =>
      PermutationBounds(ri, |ch|);
      var last := |ri| - 1;
      ToEndKeepsWellFormed(ch[ri[last]]);
      WithChildWellFormed(RandomPlay(last, ri, ch), ri[last], ToEnd(ch[ri[last]], Repaired).value);
    case SingleRandom(cur, ch) =>
      ToEndKeepsWellFormed(ch[cur]);
      WithChildWellFormed(t, cur, ToEnd(ch[cur], Repaired).value);
    case InfiniteRandom(cur, ch) =>
      ToEndKeepsWellFormed(ch[cur]);
      WithChildWellFormed(t, cur, ToEnd(ch[cur], Repaired).value);
  }

  /** Entering child `i` from its end never panics once `to_end` is repaired. */
  lemma RetreatKeepsWellFormed(t: Tracker, i: nat)
    requires !t.SinglePlay? && WellFormed(t) && i < |t.children|
    ensures Retreat(t, i, Repaired).Done? && WellFormed(Retreat(t, i, Repaired).value.1)
  {
    ToEndKeepsWellFormed(t.children[i]);
    WithChildWellFormed(t, i, ToEnd(t.children[i], Repaired).value);
  }

  /** `move_back` never panics on a well-formed tracker once `to_end` is repaired, and
      leaves it well-formed. */
  lemma {:induction false} MoveBackKeepsWellFormed(t: Tracker, d: Dice)
    requires WellFormed(t)
    ensures MoveBack(t, d, Repaired).Done? && WellFormed(MoveBack(t, d, Repaired).value.1)
  {
    if !t.SinglePlay? {
      ChildrenNonEmpty(t);
      MovingInRange(t);
      var i := Moving(t);
      MoveBackKeepsWellFormed(t.children[i], Kid(d, 0));
      var c := MoveBack(t.children[i], Kid(d, 0), Repaired).value.1;
      WithChildWellFormed(t, i, c);
      match t
      case PlayOnce(_, _) => BackPlayOnce(t, d);
      case LoopNTimes(_, _, _) => BackLoopNTimes(t, d);
      case Stretch(_, _, _) => BackStretch(t, d);
      case InfiniteLoop(_, _) => BackInfiniteLoop(t, d);
      case RandomPlay(_, _, _) => BackRandomPlay(t, d);
      case SingleRandom(_, _) => BackSingleRandom(t, d);
      case InfiniteRandom(_, _) =>
    }
  }

  /** What every arm below may assume: the current child stepped back without panicking
      and the node with that child replaced is well-formed. */
  predicate ChildBacked(t: Tracker, d: Dice)
    requires !t.SinglePlay? && WellFormed(t)
  {
    var i := Moving(t);
    i < |t.children| &&
    MoveBack(t.children[i], Kid(d, 0), Repaired).Done? &&
    WellFormed(WithChild(t, i, MoveBack(t.children[i], Kid(d, 0), Repaired).value.1))
  }

  lemma BackPlayOnce(t: Tracker, d: Dice)
    requires t.PlayOnce? && WellFormed(t) && ChildBacked(t, d)
    ensures MoveBack(t, d, Repaired).Done? && WellFormed(MoveBack(t, d, Repaired).value.1)
  {
    var cur := t.current;
    var t1 := WithChild(t, cur, MoveBack(t.children[cur], Kid(d, 0), Repaired).value.1);
    if cur > 0 {
      RetreatKeepsWellFormed(WithCurrent(t1, cur - 1), cur - 1);
    }
  }

  lemma BackLoopNTimes(t: Tracker, d: Dice)
    requires t.LoopNTimes? && WellFormed(t) && ChildBacked(t, d)
    ensures MoveBack(t, d, Repaired).Done? && WellFormed(MoveBack(t, d, Repaired).value.1)
  {
    var cur, ch := t.current, t.children;
    ChildrenNonEmpty(t);
    var t1 := WithChild(t, cur % |ch|, MoveBack(ch[cur % |ch|], Kid(d, 0), Repaired).value.1);
    if cur > 0 {
      RetreatKeepsWellFormed(WithCurrent(t1, cur - 1), (cur - 1) % |ch|);
    }
  }

  lemma BackStretch(t: Tracker, d: Dice)
    requires t.Stretch? && WellFormed(t) && ChildBacked(t, d)
    ensures MoveBack(t, d, Repaired).Done? && WellFormed(MoveBack(t, d, Repaired).value.1)
  {
    var cur, l, ch := t.current, t.length, t.children;
    DivBelow(cur, l, |ch|);
    var t1 := WithChild(t, cur / l, MoveBack(ch[cur / l], Kid(d, 0), Repaired).value.1);
    if cur > 0 {
      DivBelow(cur - 1, l, |ch|);
      RetreatKeepsWellFormed(WithCurrent(t1, cur - 1), (cur - 1) / l);
    }
  }

  lemma BackInfiniteLoop(t: Tracker, d: Dice)
    requires t.InfiniteLoop? && WellFormed(t) && ChildBacked(t, d)
    ensures MoveBack(t, d, Repaired).Done? && WellFormed(MoveBack(t, d, Repaired).value.1)
  {
    var cur := t.current;
    var t1 := WithChild(t, cur, MoveBack(t.children[cur], Kid(d, 0), Repaired).value.1);
    if cur > 0 {
      RetreatKeepsWellFormed(WithCurrent(t1, cur - 1), cur - 1);
    }
  }

  lemma BackRandomPlay(t: Tracker, d: Dice)
    requires t.RandomPlay? && WellFormed(t) && ChildBacked(t, d)
    ensures MoveBack(t, d, Repaired).Done? && WellFormed(MoveBack(t, d, Repaired).value.1)
  {
    var cur, ri, ch := t.current, t.randomizedIndices, t.children;
    PermutationBounds(ri, |ch|);
    var t1 := WithChild(t, ri[cur], MoveBack(ch[ri[cur]], Kid(d, 0), Repaired).value.1);
    if cur > 0 {
      RetreatKeepsWellFormed(WithCurrent(t1, cur - 1), ri[cur - 1]);
    }
  }

  lemma BackSingleRandom(t: Tracker, d: Dice)
    requires t.SingleRandom? && WellFormed(t) && ChildBacked(t, d)
    ensures MoveBack(t, d, Repaired).Done? && WellFormed(MoveBack(t, d, Repaired).value.1)
  {
    var cur, ch := t.current, t.children;
    var t1 := WithChild(t, cur, MoveBack(ch[cur], Kid(d, 0), Repaired).value.1);
    var j := PickBelow(d, |ch|);
    RetreatKeepsWellFormed(WithCurrent(t1, j), j);
  }
}
