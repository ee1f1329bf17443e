/** The tracker as the player holds it: one mutable root whose `&mut self` methods move the
    cursors in place. Each method is the matching tree function applied to the root. */
module OpTrackerLive {
  import opened Wrappers
  import opened Randomness
  import opened OpTracker
  import opened OpTrackerProofs
  import OpTrackerPaths
  import OpTrackerFrom
  import SongOps

  class LiveTracker {
    var root: Tracker
    const variant: Variant

    /** Every cursor of the root names an existing position. */
    predicate Valid()
      reads this
    {
      WellFormed(root)
    }

    /** `SongOpTracker::from` for a program every random choice of which has children; a
        playable program gives a valid tracker. */
    constructor (op: SongOps.RecursiveSongOp, d: Dice, v: Variant)
      requires OpTrackerFrom.NoEmptyChoice(op)
      ensures From(op, d).Done? && root == From(op, d).value && variant == v
      ensures OpTrackerFrom.Playable(op) ==> Valid()
    {
      OpTrackerFrom.FromPanicsIffEmptyChoice(op, d);
      if OpTrackerFrom.Playable(op) {
        OpTrackerFrom.FromPlayableIsWellFormed(op, d);
      }
      root := From(op, d).value;
      variant := v;
    }

    /** `move_next`; a panic leaves nothing to observe, so the root is kept. */
    method MoveNext(d: Dice) returns (r: Exec<NextResult>)
      modifies this
      ensures r.Done? <==> OpTracker.MoveNext(old(root), d).Done?
      ensures r.Done? ==> r.value == OpTracker.MoveNext(old(root), d).value.0 &&
                          root == OpTracker.MoveNext(old(root), d).value.1
      ensures r.Panics? ==> root == old(root)
      ensures old(Valid()) ==> r.Done? && Valid()
    {
      if WellFormed(root) {
        MoveNextKeepsWellFormed(root, d);
      }
      match OpTracker.MoveNext(root, d)
      case Panics(p) => r := Panics(p);
      case Done((res, t)) => r := Done(res); root := t;
    }

    /** `move_back`; once `to_end` is repaired it keeps the tracker valid. */
    method MoveBack(d: Dice) returns (r: Exec<BackResult>)
      modifies this
      ensures r.Done? <==> OpTracker.MoveBack(old(root), d, variant).Done?
      ensures r.Done? ==> r.value == OpTracker.MoveBack(old(root), d, variant).value.0 &&
                          root == OpTracker.MoveBack(old(root), d, variant).value.1
      ensures r.Panics? ==> root == old(root)
      ensures old(Valid()) && variant == Repaired ==> r.Done? && Valid()
    {
      if WellFormed(root) && variant == Repaired {
        MoveBackKeepsWellFormed(root, d);
      }
      match OpTracker.MoveBack(root, d, variant)
      case Panics(p) => r := Panics(p);
      case Done((res, t)) => r := Done(res); root := t;
    }

    /** `get_current`: reads the path and changes nothing. */
    method Current() returns (r: Exec<seq<nat>>)
      ensures r == GetCurrent(root, variant)
      ensures Valid() && variant != Older ==> r.Done? && OpTrackerPaths.Leads(root, r.value)
    {
      if WellFormed(root) && variant != Older {
        OpTrackerPaths.GetCurrentFollowsCursors(root, variant);
      }
      r := GetCurrent(root, variant);
    }

    /** `set_current`; repaired, it makes `get_current` return the path that was set. */
    method SetPath(indices: seq<nat>) returns (r: Exec<()>)
      modifies this
      ensures r.Done? <==> SetCurrent(old(root), indices, variant).Done?
      ensures r.Done? ==> root == SetCurrent(old(root), indices, variant).value
      ensures r.Panics? ==> root == old(root)
      ensures old(Valid()) && variant == Repaired && OpTrackerPaths.ValidPath(old(root), indices) ==>
                r.Done? && Valid() && GetCurrent(root, variant) == Done(indices)
    {
      if WellFormed(root) && variant == Repaired && OpTrackerPaths.ValidPath(root, indices) {
        OpTrackerPaths.SetCurrentRoundTrip(root, indices);
      }
      match SetCurrent(root, indices, variant)
      case Panics(p) => r := Panics(p);
      case Done(t) => r := Done(()); root := t;
    }

    /** `to_start`. */
    method Restart(d: Dice) returns (r: Exec<()>)
      modifies this
      ensures r.Done? <==> ToStart(old(root), d).Done?
      ensures r.Done? ==> root == ToStart(old(root), d).value
      ensures r.Panics? ==> root == old(root)
      ensures old(Valid()) ==> r.Done? && Valid()
    {
      if WellFormed(root) {
        ToStartKeepsWellFormed(root, d);
      }
      match ToStart(root, d)
      case Panics(p) => r := Panics(p);
      case Done(t) => r := Done(()); root := t;
    }

    /** `to_end`; repaired, it keeps the tracker valid. */
    method SkipToEnd() returns (r: Exec<()>)
      modifies this
      ensures r.Done? <==> ToEnd(old(root), variant).Done?
      ensures r.Done? ==> root == ToEnd(old(root), variant).value
      ensures r.Panics? ==> root == old(root)
      ensures old(Valid()) && variant == Repaired ==> r.Done? && Valid()
    {
      if WellFormed(root) && variant == Repaired {
        ToEndKeepsWellFormed(root);
      }
      match ToEnd(root, variant)
      case Panics(p) => r := Panics(p);
      case Done(t) => r := Done(()); root := t;
    }
  }
}
