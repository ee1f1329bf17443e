/** A fresh tracker built from a playlist program. */
module OpTrackerFrom {
  import opened Wrappers
  import opened Collections
  import opened Randomness
  import opened OpTracker
  import opened OpTrackerProofs
  import OpTrackerPaths
  import SongOps

  /** Every `SingleRandom` and `InfiniteRandom` in the program has a child to pick. */
  predicate NoEmptyChoice(op: SongOps.RecursiveSongOp)
  {
    match op
    case SinglePlay(_) => true
    case SingleRandom(ops) => |ops| > 0 && forall i | 0 <= i < |ops| :: NoEmptyChoice(ops[i])
    case InfiniteRandom(ops) => |ops| > 0 && forall i | 0 <= i < |ops| :: NoEmptyChoice(ops[i])
    case _ => forall i | 0 <= i < |op.ops| :: NoEmptyChoice(op.ops[i])
  }

  /** `t` is a tracker at the start of `op`: the same shape, every sequential cursor at 0,
      the counts copied, the shuffled order a permutation, every pick a valid child. */
  predicate Fresh(t: Tracker, op: SongOps.RecursiveSongOp)
    decreases op, 1
  {
    match op
    case SinglePlay(_) => t == SinglePlay
    case PlayOnce(ops) => t.PlayOnce? && t.current == 0 && FreshChildren(t, op)
    case LoopNTimes(ops, n) =>
      t.LoopNTimes? && t.current == 0 && t.totalLoops == n as nat && FreshChildren(t, op)
    case Stretch(ops, n) =>
      t.Stretch? && t.current == 0 && t.length == n as nat && FreshChildren(t, op)
    case InfiniteLoop(ops) => t.InfiniteLoop? && t.current == 0 && FreshChildren(t, op)
    case RandomPlay(ops) =>
      t.RandomPlay? && t.current == 0 && multiset(t.randomizedIndices) == multiset(Range(|ops|)) &&
      FreshChildren(t, op)
    case SingleRandom(ops) => t.SingleRandom? && t.current < |ops| && FreshChildren(t, op)
    case InfiniteRandom(ops) => t.InfiniteRandom? && t.current < |ops| && FreshChildren(t, op)
  }

  predicate FreshChildren(t: Tracker, op: SongOps.RecursiveSongOp)
    requires !t.SinglePlay? && !op.SinglePlay?
    decreases op, 0
  {
    |t.children| == |op.ops| && forall i | 0 <= i < |op.ops| :: Fresh(t.children[i], op.ops[i])
  }

  /** Building a tracker panics exactly when some random choice has nothing to choose from. */
  lemma {:induction false} FromPanicsIffEmptyChoice(op: SongOps.RecursiveSongOp, d: Dice)
    ensures From(op, d).Done? <==> NoEmptyChoice(op)
  {
    if !op.SinglePlay? {
      forall i | 0 <= i < |op.ops|
        ensures From(op.ops[i], Kid(d, i)).Done? <==> NoEmptyChoice(op.ops[i])
      {
        FromPanicsIffEmptyChoice(op.ops[i], Kid(d, i));
      }
      var es := seq(|op.ops|, i requires 0 <= i < |op.ops| => From(op.ops[i], Kid(d, i)));
      assert FromAll(op, d) == Collect(es);
      assert forall i :: 0 <= i < |es| ==> es[i] == From(op.ops[i], Kid(d, i));
    }
  }

  /** A tracker that was built is at the start of the program. */
  lemma {:induction false} FromIsFresh(op: SongOps.RecursiveSongOp, d: Dice)
    requires From(op, d).Done?
    ensures Fresh(From(op, d).value, op)
  {
    if !op.SinglePlay? {
      var es := seq(|op.ops|, i requires 0 <= i < |op.ops| => From(op.ops[i], Kid(d, i)));
      assert FromAll(op, d) == Collect(es);
      var cs := FromAll(op, d).value;
      forall i | 0 <= i < |op.ops| ensures Fresh(cs[i], op.ops[i]) {
        assert es[i] == From(op.ops[i], Kid(d, i));
        FromIsFresh(op.ops[i], Kid(d, i));
      }
    }
  }

  /** A program in which every group has children and every count is at least 1. */
  predicate Playable(op: SongOps.RecursiveSongOp)
  {
    match op
    case SinglePlay(_) => true
    case LoopNTimes(ops, n) => |ops| > 0 && n > 0 && forall i | 0 <= i < |ops| :: Playable(ops[i])
    case Stretch(ops, n) => |ops| > 0 && n > 0 && forall i | 0 <= i < |ops| :: Playable(ops[i])
    case _ => |op.ops| > 0 && forall i | 0 <= i < |op.ops| :: Playable(op.ops[i])
  }

  lemma {:induction false} PlayableHasChoices(op: SongOps.RecursiveSongOp)
    requires Playable(op)
    ensures NoEmptyChoice(op)
  {
    if !op.SinglePlay? {
      forall i | 0 <= i < |op.ops| ensures NoEmptyChoice(op.ops[i]) {
        PlayableHasChoices(op.ops[i]);
      }
    }
  }

  lemma {:induction false} FreshPlayableIsWellFormed(t: Tracker, op: SongOps.RecursiveSongOp)
    requires Fresh(t, op) && Playable(op)
    ensures WellFormed(t)
  {
    if !op.SinglePlay? {
      forall i | 0 <= i < |t.children| ensures WellFormed(t.children[i]) {
        FreshPlayableIsWellFormed(t.children[i], op.ops[i]);
      }
      match op
      case LoopNTimes(ops, n) => MulLeq(1, n as nat, |ops|);
      case Stretch(ops, n) => MulLeq(1, n as nat, |ops|);
      case RandomPlay(ops) => PermutationBounds(t.randomizedIndices, |ops|);
      case _ =>
    }
  }

  /** A playable program gives a well-formed tracker, which every later step keeps so. */
  lemma FromPlayableIsWellFormed(op: SongOps.RecursiveSongOp, d: Dice)
    requires Playable(op)
    ensures From(op, d).Done? && WellFormed(From(op, d).value)
  {
    PlayableHasChoices(op);
    FromPanicsIffEmptyChoice(op, d);
    FromIsFresh(op, d);
    FreshPlayableIsWellFormed(From(op, d).value, op);
  }

  /** A `Stretch` of zero copies plays nothing in `into_iter`, but its tracker divides by
      zero at the first step. */
  lemma ZeroStretchDividesByZero(id: SongOps.IDKey, d: Dice, e: Dice)
    ensures From(SongOps.Stretch([SongOps.SinglePlay(id)], 0), d) == Done(Stretch(0, 0, [SinglePlay]))
    ensures MoveNext(Stretch(0, 0, [SinglePlay]), e) == Panics(DivisionByZero)
  {
    var op := SongOps.Stretch([SongOps.SinglePlay(id)], 0);
    var es := seq(1, i requires 0 <= i < 1 => From(op.ops[i], Kid(d, i)));
    assert es == [Done(SinglePlay)];
    assert FromAll(op, d) == Collect(es);
    var r := Collect(es);
    assert r.Done? && r.value == [SinglePlay];
  }

  /** A `LoopNTimes` of zero rounds plays nothing in `into_iter`, but its tracker computes
      `0 - 1` in `usize` once its child ends. */
  lemma ZeroLoopsUnderflow(e: Dice)
    ensures MoveNext(LoopNTimes(0, 0, [SinglePlay]), e) == Panics(Underflow)
  {
  }

  /** `p` names existing children from `op` down to a song. */
  predicate ProgramPath(op: SongOps.RecursiveSongOp, p: seq<nat>)
  {
    if op.SinglePlay? then p == []
    else |p| > 0 && p[0] < |op.ops| && ProgramPath(op.ops[p[0]], p[1..])
  }

  /** A path through the program is one through any fresh tracker of it. */
  lemma {:induction false} ProgramPathIsTrackerPath(t: Tracker, op: SongOps.RecursiveSongOp, p: seq<nat>)
    requires Fresh(t, op) && ProgramPath(op, p)
    ensures OpTrackerPaths.ValidPath(t, p)
  {
    if !op.SinglePlay? {
      assert FreshChildren(t, op);
      ProgramPathIsTrackerPath(t.children[p[0]], op.ops[p[0]], p[1..]);
    }
  }

  /** Repaired, `from_song_op` lands on the path it was given: the new tracker is well-formed
      and `get_current` reads that path back. */
  lemma FromSongOpRoundTrip(op: SongOps.RecursiveSongOp, p: seq<nat>, d: Dice)
    requires Playable(op) && ProgramPath(op, p)
    ensures FromSongOp(op, p, d, Repaired).Done?
    ensures WellFormed(FromSongOp(op, p, d, Repaired).value)
    ensures GetCurrent(FromSongOp(op, p, d, Repaired).value, Repaired) == Done(p)
  {
    FromPlayableIsWellFormed(op, d);
    FromIsFresh(op, d);
    ProgramPathIsTrackerPath(From(op, d).value, op, p);
    OpTrackerPaths.SetCurrentRoundTrip(From(op, d).value, p);
  }
}
