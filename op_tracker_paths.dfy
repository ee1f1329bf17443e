/** Reading and writing the cursor path: `get_current` and `set_current`. */
module OpTrackerPaths {
  import opened Wrappers
  import opened Collections
  import opened Randomness
  import opened OpTracker
  import opened OpTrackerProofs

  /** `p` follows the cursors from `t` down to a song. */
  predicate Leads(t: Tracker, p: seq<nat>)
  {
    if t.SinglePlay? then p == []
    else |p| > 0 && p[0] == Moving(t) && p[0] < |t.children| && Leads(t.children[p[0]], p[1..])
  }

  /** `p` names existing children from `t` down to a song, whatever the cursors say. */
  predicate ValidPath(t: Tracker, p: seq<nat>)
  {
    if t.SinglePlay? then p == []
    else |p| > 0 && p[0] < |t.children| && ValidPath(t.children[p[0]], p[1..])
  }

  /** On a well-formed tracker `get_current` reads the cursor of every node. */
  lemma GetCurrentThrough(t: Tracker, v: Variant)
    requires !t.SinglePlay? && WellFormed(t)
    ensures Moving(t) < |t.children|
    ensures GetCurrent(t, v) == Prefixed(Moving(t), GetCurrent(t.children[Moving(t)], v))
  {
    ChildrenNonEmpty(t);
    MovingInRange(t);
    match t
    case Stretch(cur, l, ch) => DivBelow(cur, l, |ch|);
    case RandomPlay(cur, ri, ch) => PermutationBounds(ri, |ch|);
    case _ =>
  }

  /** `get_current` never panics on a well-formed tracker, and its path follows the
      cursors down to a song. */
  lemma {:induction false} GetCurrentFollowsCursors(t: Tracker, v: Variant)
    requires WellFormed(t) && v != Older
    ensures GetCurrent(t, v).Done? && Leads(t, GetCurrent(t, v).value)
  {
    if !t.SinglePlay? {
      GetCurrentThrough(t, v);
      var i := Moving(t);
      GetCurrentFollowsCursors(t.children[i], v);
      var p := GetCurrent(t, v).value;
      assert p[1..] == GetCurrent(t.children[i], v).value;
    }
  }

  /** The path with the older tracker's trailing `0`. */
  function WithTrailingZero(e: Exec<seq<nat>>): Exec<seq<nat>>
  {
    match e
    case Panics(p) => Panics(p)
    case Done(path) => Done(path + [0])
  }

  /** The older tracker's paths are the newer tracker's with one `0` appended, from the
      `[0]` its `SinglePlay` reports; both panic alike. */
  lemma {:induction false} OlderPathsEndInZero(t: Tracker)
    ensures GetCurrent(t, Older) == WithTrailingZero(GetCurrent(t, Newer))
  {
    match t
    case SinglePlay => assert [] + [0] == [0];
    case PlayOnce(cur, ch) =>
      if cur < |ch| { OlderPathsEndInZero(ch[cur]); PrefixedZero(cur, ch[cur]); }
    case LoopNTimes(cur, _, ch) =>
      if |ch| > 0 { OlderPathsEndInZero(ch[cur % |ch|]); PrefixedZero(cur % |ch|, ch[cur % |ch|]); }
    case Stretch(cur, l, ch) =>
      if l > 0 && cur / l < |ch| { OlderPathsEndInZero(ch[cur / l]); PrefixedZero(cur / l, ch[cur / l]); }
    case InfiniteLoop(cur, ch) =>
      if cur < |ch| { OlderPathsEndInZero(ch[cur]); PrefixedZero(cur, ch[cur]); }
    case RandomPlay(cur, ri, ch) =>
      if cur < |ri| && ri[cur] < |ch| { OlderPathsEndInZero(ch[ri[cur]]); PrefixedZero(ri[cur], ch[ri[cur]]); }
    case SingleRandom(cur, ch) =>
      if cur < |ch| { OlderPathsEndInZero(ch[cur]); PrefixedZero(cur, ch[cur]); }
    case InfiniteRandom(cur, ch) =>
      if cur < |ch| { OlderPathsEndInZero(ch[cur]); PrefixedZero(cur, ch[cur]); }
  }

  lemma PrefixedZero(i: nat, c: Tracker)
    requires GetCurrent(c, Older) == WithTrailingZero(GetCurrent(c, Newer))
    ensures Prefixed(i, GetCurrent(c, Older)) == WithTrailingZero(Prefixed(i, GetCurrent(c, Newer)))
  {
    match GetCurrent(c, Newer)
    case Panics(_) =>
    case Done(p) => assert [i] + (p + [0]) == ([i] + p) + [0];
  }

  /** `get_current` differs between the variants only in the older tracker's `SinglePlay`. */
  lemma {:induction false} GetCurrentSameAfterRepair(t: Tracker)
    ensures GetCurrent(t, Newer) == GetCurrent(t, Repaired)
  {
    match t
    case SinglePlay =>
    case PlayOnce(cur, ch) => if cur < |ch| { GetCurrentSameAfterRepair(ch[cur]); }
    case LoopNTimes(cur, _, ch) => if |ch| > 0 { GetCurrentSameAfterRepair(ch[cur % |ch|]); }
    case Stretch(cur, l, ch) =>
      if l > 0 && cur / l < |ch| { GetCurrentSameAfterRepair(ch[cur / l]); }
    case InfiniteLoop(cur, ch) => if cur < |ch| { GetCurrentSameAfterRepair(ch[cur]); }
    case RandomPlay(cur, ri, ch) =>
      if cur < |ri| && ri[cur] < |ch| { GetCurrentSameAfterRepair(ch[ri[cur]]); }
    case SingleRandom(cur, ch) => if cur < |ch| { GetCurrentSameAfterRepair(ch[cur]); }
    case InfiniteRandom(cur, ch) => if cur < |ch| { GetCurrentSameAfterRepair(ch[cur]); }
  }

  /** The repaired position of child `i` keeps the node well-formed and designates child `i`. */
  lemma PositionDesignates(t: Tracker, i: nat)
    requires !t.SinglePlay? && WellFormed(t) && i < |t.children|
    ensures WellFormed(WithCurrent(t, Position(t, i, Repaired)))
    ensures Moving(WithCurrent(t, Position(t, i, Repaired))) == i
  {
    ChildrenNonEmpty(t);
    match t
    case LoopNTimes(_, n, ch) =>
      MulLeq(1, n, |ch|);
      ModUnique(i, |ch|, 0);
    case Stretch(cur, l, ch) =>
      DivBelow(cur, l, |ch|);
      MulLeq(i + 1, |ch|, l);
      DivUnique(i * l, l, i);
    case RandomPlay(_, ri, ch) =>
      RangeMembers(|ch|);
      assert i in multiset(ri);
    case _ =>
  }

  /** Repaired, `set_current` then `get_current` gives back the path that was set, and
      the tracker stays well-formed. */
  lemma {:induction false} SetCurrentRoundTrip(t: Tracker, p: seq<nat>)
    requires WellFormed(t) && ValidPath(t, p)
    ensures SetCurrent(t, p, Repaired).Done?
    ensures WellFormed(SetCurrent(t, p, Repaired).value)
    ensures GetCurrent(SetCurrent(t, p, Repaired).value, Repaired) == Done(p)
  {
    if !t.SinglePlay? {
      var i := p[0];
      var t1 := WithCurrent(t, Position(t, i, Repaired));
      PositionDesignates(t, i);
      SetCurrentRoundTrip(t.children[i], p[1..]);
      var c := SetCurrent(t.children[i], p[1..], Repaired).value;
      WithChildWellFormed(t1, i, c);
      var r := WithChild(t1, i, c);
      assert Moving(r) == i by { MovingOfWithChild(t1, i, c); }
      GetCurrentThrough(r, Repaired);
      assert [i] + p[1..] == p;
    }
  }

  /** Replacing a child leaves the designated child where it was. */
  lemma MovingOfWithChild(t: Tracker, i: nat, c: Tracker)
    requires !t.SinglePlay? && i < |t.children|
    ensures Moving(WithChild(t, i, c)) == Moving(t)
  {
  }

  /** Along `p`, the repaired position of each index is the index itself. */
  predicate DirectAlong(t: Tracker, p: seq<nat>)
  {
    t.SinglePlay? || |p| == 0 ||
    (Position(t, p[0], Repaired) == p[0] &&
     (|p| == 1 || p[0] >= |t.children| || DirectAlong(t.children[p[0]], p[1..])))
  }

  /** Where every index is its own position (`PlayOnce`, `LoopNTimes`, `InfiniteLoop`, the
      two single-choice kinds, a `Stretch` of length 1) the written `set_current` is the
      repaired one. */
  lemma {:induction false} SetCurrentAsWrittenWhenDirect(t: Tracker, p: seq<nat>)
    requires DirectAlong(t, p)
    ensures SetCurrent(t, p, Newer) == SetCurrent(t, p, Repaired)
  {
    if !t.SinglePlay? && |p| > 1 && p[0] < |t.children| {
      SetCurrentAsWrittenWhenDirect(t.children[p[0]], p[1..]);
    }
  }

  /** The written `set_current` round-trips through `get_current` on such paths. */
  lemma SetCurrentRoundTripWhenDirect(t: Tracker, p: seq<nat>)
    requires WellFormed(t) && ValidPath(t, p) && DirectAlong(t, p)
    ensures SetCurrent(t, p, Newer).Done?
    ensures GetCurrent(SetCurrent(t, p, Newer).value, Newer) == Done(p)
  {
    SetCurrentAsWrittenWhenDirect(t, p);
    SetCurrentRoundTrip(t, p);
    GetCurrentSameAfterRepair(SetCurrent(t, p, Repaired).value);
  }

  /** An empty path leaves the tracker as it was. */
  lemma SetCurrentEmpty(t: Tracker, v: Variant)
    ensures SetCurrent(t, [], v) == Done(t)
  {
  }

  /** As written, `set_current` on a `Stretch` stores the child index as the position, so
      `get_current` names a different child: `[1]` comes back as `[0]`. */
  lemma SetCurrentMissesInStretch()
    ensures WellFormed(Stretch(0, 2, [SinglePlay, SinglePlay]))
    ensures ValidPath(Stretch(0, 2, [SinglePlay, SinglePlay]), [1])
    ensures SetCurrent(Stretch(0, 2, [SinglePlay, SinglePlay]), [1], Newer)
            == Done(Stretch(1, 2, [SinglePlay, SinglePlay]))
    ensures GetCurrent(Stretch(1, 2, [SinglePlay, SinglePlay]), Newer) == Done([0])
  {
    var t := Stretch(0, 2, [SinglePlay, SinglePlay]);
    assert WellFormed(t.children[0]) && WellFormed(t.children[1]);
    assert 1 / 2 == 0;
    assert GetCurrent(SinglePlay, Newer) == Done([]);
    assert [0] + [] == [0];
  }

  /** As written, `set_current` on a `RandomPlay` stores the child index as a position in
      the shuffled order: with order `[1, 0]`, `[0]` comes back as `[1]`. */
  lemma SetCurrentMissesInRandomPlay()
    ensures WellFormed(RandomPlay(0, [1, 0], [SinglePlay, SinglePlay]))
    ensures SetCurrent(RandomPlay(0, [1, 0], [SinglePlay, SinglePlay]), [0], Newer)
            == Done(RandomPlay(0, [1, 0], [SinglePlay, SinglePlay]))
    ensures GetCurrent(RandomPlay(0, [1, 0], [SinglePlay, SinglePlay]), Newer) == Done([1])
  {
    var t := RandomPlay(0, [1, 0], [SinglePlay, SinglePlay]);
    assert WellFormed(t.children[0]) && WellFormed(t.children[1]);
    assert [1, 0] == [1] + [0];
    assert Range(2) == [0, 1];
    assert multiset([1, 0]) == multiset(Range(2));
    assert GetCurrent(SinglePlay, Newer) == Done([]);
    assert [1] + [] == [1];
  }
}
