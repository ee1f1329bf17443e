/** Dropping an item onto a widget of the playlist editor: `item_has_id` looks for the group
    or song row with a widget id, `push_to_id` puts the item there. */
module OpConstructorPush {
  import opened Wrappers
  import opened OpConstructor

  /** The widget id of each song row, by song key (`SongMap` holds the songs, each with its
      own id). */
  type SongMap = map<SongID, nat>

  // With `AsWritten`, a group answers `item_has_id` with `count() > 0`, which is true for
  // any non-empty group; with `Corrected` it asks whether some row has the id, as `any`
  // would.

  /** `item_has_id`: a song row has the id when its song's widget does (`song_map[key]`
      panics for a key not in the map); a group when its own widget does, or else by the
      revision's test over its rows. */
  function ItemHasId(item: ConstructorItem, songMap: SongMap, id: nat, rev: Revision): Exec<bool>
    decreases item, 1, 0
  {
    match item
    case Song(key) => if key !in songMap then Panics(MissingKey) else Done(songMap[key] == id)
    case Operation(g) =>
      if g.id == id then Done(true)
      else if rev == AsWritten then
        (match EvalAll(g, songMap, id, rev, 0)
          case Panics(p) => Panics(p)
          case Done(_) => Done(|g.list| > 0))
      else
        (match HitFrom(g, songMap, id, rev, 0)
          case Panics(p) => Panics(p)
          case Done(hit) => Done(hit.Some?))
  }

  /** `.map(item_has_id).count()`: every row from `k` on is asked, in order, and the
      answers are dropped; a panic in one of them is the only thing that escapes. */
  function EvalAll(g: SongOpConstructor, songMap: SongMap, id: nat, rev: Revision, k: nat): Exec<()>
    decreases g, 0, |g.list| - k
  {
    if k >= |g.list| then Done(())
    else
      match ItemHasId(g.list[k], songMap, id, rev)
      case Panics(p) => Panics(p)
      case Done(_) => EvalAll(g, songMap, id, rev, k + 1)
  }

  /** The first row from `k` on that has the id, asking rows in order and stopping at the
      first that has it. */
  function HitFrom(g: SongOpConstructor, songMap: SongMap, id: nat, rev: Revision, k: nat): Exec<Option<nat>>
    decreases g, 0, |g.list| - k
  {
    if k >= |g.list| then Done(None)
    else
      match ItemHasId(g.list[k], songMap, id, rev)
      case Panics(p) => Panics(p)
      case Done(true) => Done(Some(k))
      case Done(false) => HitFrom(g, songMap, id, rev, k + 1)
  }

  /** A hit is the first row from `k` on with the id; no hit means no row from `k` on has it. */
  lemma {:induction false} HitFromIsFirst(g: SongOpConstructor, songMap: SongMap, id: nat, rev: Revision, k: nat)
    ensures HitFrom(g, songMap, id, rev, k).Done? && HitFrom(g, songMap, id, rev, k).value.Some? ==>
              var h := HitFrom(g, songMap, id, rev, k).value.value;
              k <= h < |g.list| && ItemHasId(g.list[h], songMap, id, rev) == Done(true) &&
              forall j :: k <= j < h ==> ItemHasId(g.list[j], songMap, id, rev) == Done(false)
    ensures HitFrom(g, songMap, id, rev, k) == Done(None) ==>
              forall j :: k <= j < |g.list| ==> ItemHasId(g.list[j], songMap, id, rev) == Done(false)
    decreases |g.list| - k
  {
    if k < |g.list| && ItemHasId(g.list[k], songMap, id, rev) == Done(false) {
      HitFromIsFirst(g, songMap, id, rev, k + 1);
    }
  }

  /** The editor after `push_to_id` on `item`: a group with the id gets the new item at the
      end; otherwise the first row that has the id gets it, a song row by the item going in
      just before it, a group row by pushing into it. No such row: nothing changes. A song
      row as the target itself is `todo!()`. */
  function PushedToId(item: ConstructorItem, id: nat, songMap: SongMap, x: ConstructorItem, rev: Revision): Exec<ConstructorItem>
    decreases item
  {
    match item
    case Song(_) => Panics(Unimplemented)
    case Operation(op) =>
      if op.id == id then Done(Operation(Push(op, x)))
      else
        HitFromIsFirst(op, songMap, id, rev, 0);
        match HitFrom(op, songMap, id, rev, 0)
        case Panics(p) => Panics(p)
        case Done(None) => Done(item)
        case Done(Some(k)) =>
          if op.list[k].Song? then Done(Operation(Insert(op, k, x).value))
          else
            (match PushedToId(op.list[k], id, songMap, x, rev)
              case Panics(p) => Panics(p)
              case Done(c) => Done(Operation(op.(list := op.list[k := c]))))
  }

  /** `push_to_id`: walks the rows in order, asking each whether it has the id, and acts on
      the first that does. */
  method PushToId(item: ConstructorItem, id: nat, songMap: SongMap, x: ConstructorItem, rev: Revision)
    returns (r: Exec<ConstructorItem>)
    ensures r == PushedToId(item, id, songMap, x, rev)
    decreases item
  {
    if item.Song? {
      return Panics(Unimplemented);
    }
    var op := item.group;
    if op.id == id {
      return Done(Operation(Push(op, x)));
    }
    var idx := 0;
    while idx < |op.list|
      invariant 0 <= idx <= |op.list|
      invariant HitFrom(op, songMap, id, rev, 0) == HitFrom(op, songMap, id, rev, idx)
      decreases |op.list| - idx
    {
      var child := op.list[idx];
      var has := ItemHasId(child, songMap, id, rev);
      if has.Panics? {
        return Panics(has.reason);
      }
      if has.value {
        if child.Song? {
          var ins := Insert(op, idx, x);
          return Done(Operation(ins.value));
        }
        var sub := PushToId(child, id, songMap, x, rev);
        if sub.Panics? {
          return Panics(sub.reason);
        }
        return Done(Operation(op.(list := op.list[idx := sub.value])));
      }
      idx := idx + 1;
    }
    return Done(item);
  }

  /** Every song row under `item` has a song in the map. */
  predicate KeysKnown(item: ConstructorItem, songMap: SongMap)
  {
    match item
    case Song(key) => key in songMap
    case Operation(g) => forall i | 0 <= i < |g.list| :: KeysKnown(g.list[i], songMap)
  }

  /** The widget with the id is `item` itself or lies somewhere under it. */
  predicate HasId(item: ConstructorItem, songMap: SongMap, id: nat)
  {
    match item
    case Song(key) => key in songMap && songMap[key] == id
    case Operation(g) => g.id == id || exists i | 0 <= i < |g.list| :: HasId(g.list[i], songMap, id)
  }

  /** Corrected, `item_has_id` answers exactly whether the widget lies under the item. */
  lemma {:induction false} CorrectedHasIdFindsWidget(item: ConstructorItem, songMap: SongMap, id: nat)
    requires KeysKnown(item, songMap)
    ensures ItemHasId(item, songMap, id, Corrected) == Done(HasId(item, songMap, id))
    decreases item, 1, 0
  {
    match item
    case Song(_) =>
    case Operation(g) =>
      if g.id != id {
        CorrectedScanFindsWidget(g, songMap, id, 0);
      }
  }

  lemma {:induction false} CorrectedScanFindsWidget(g: SongOpConstructor, songMap: SongMap, id: nat, k: nat)
    requires forall i | 0 <= i < |g.list| :: KeysKnown(g.list[i], songMap)
    ensures HitFrom(g, songMap, id, Corrected, k).Done?
    ensures HitFrom(g, songMap, id, Corrected, k).value.Some? <==>
              exists i | k <= i < |g.list| :: HasId(g.list[i], songMap, id)
    decreases g, 0, |g.list| - k
  {
    if k < |g.list| {
      CorrectedHasIdFindsWidget(g.list[k], songMap, id);
      CorrectedScanFindsWidget(g, songMap, id, k + 1);
      if HasId(g.list[k], songMap, id) {
        assert k <= k < |g.list| && HasId(g.list[k], songMap, id);
      } else if exists i | k <= i < |g.list| :: HasId(g.list[i], songMap, id) {
        var i :| k <= i < |g.list| && HasId(g.list[i], songMap, id);
        assert k + 1 <= i;
      }
    }
  }

  /** As written, a group whose own widget is not the one asked for answers whether it has
      rows at all, whatever they hold. */
  lemma AsWrittenHasIdIsNonEmpty(g: SongOpConstructor, songMap: SongMap, id: nat)
    requires KeysKnown(Operation(g), songMap) && g.id != id
    ensures ItemHasId(Operation(g), songMap, id, AsWritten) == Done(|g.list| > 0)
  {
    AsWrittenScanDoesNotPanic(g, songMap, id, 0);
  }

  lemma {:induction false} AsWrittenScanDoesNotPanic(g: SongOpConstructor, songMap: SongMap, id: nat, k: nat)
    requires forall i | 0 <= i < |g.list| :: KeysKnown(g.list[i], songMap)
    ensures EvalAll(g, songMap, id, AsWritten, k).Done?
    decreases g, 0, |g.list| - k
  {
    if k < |g.list| {
      AsWrittenHasIdDoesNotPanic(g.list[k], songMap, id);
      AsWrittenScanDoesNotPanic(g, songMap, id, k + 1);
    }
  }

  lemma {:induction false} AsWrittenHasIdDoesNotPanic(item: ConstructorItem, songMap: SongMap, id: nat)
    requires KeysKnown(item, songMap)
    ensures ItemHasId(item, songMap, id, AsWritten).Done?
    decreases item, 1, 0
  {
    if item.Operation? && item.group.id != id {
      AsWrittenScanDoesNotPanic(item.group, songMap, id, 0);
    }
  }

  /** How many rows, songs and groups, `item` holds, itself included. */
  function Size(item: ConstructorItem): nat
  {
    match item
    case Song(_) => 1
    case Operation(g) => 1 + ListSize(g.list)
  }

  function ListSize(s: seq<ConstructorItem>): nat
  {
    if |s| == 0 then 0 else Size(s[0]) + ListSize(s[1..])
  }

  lemma {:induction false} ListSizeAppend(a: seq<ConstructorItem>, b: seq<ConstructorItem>)
    ensures ListSize(a + b) == ListSize(a) + ListSize(b)
  {
    if |a| == 0 {
      assert a + b == b;
    } else {
      assert (a + b)[1..] == a[1..] + b;
      ListSizeAppend(a[1..], b);
    }
  }

  /** Replacing the `k`-th row changes the size by the difference of the two rows. */
  lemma ListSizeReplace(s: seq<ConstructorItem>, k: nat, c: ConstructorItem)
    requires k < |s|
    ensures ListSize(s[k := c]) + Size(s[k]) == ListSize(s) + Size(c)
  {
    assert s == s[..k] + [s[k]] + s[k + 1..];
    assert s[k := c] == s[..k] + [c] + s[k + 1..];
    ListSizeAppend(s[..k] + [s[k]], s[k + 1..]);
    ListSizeAppend(s[..k], [s[k]]);
    ListSizeAppend(s[..k] + [c], s[k + 1..]);
    ListSizeAppend(s[..k], [c]);
    assert [s[k]][1..] == [] && [c][1..] == [];
  }

  /** Inserting a row adds its size. */
  lemma ListSizeInsert(s: seq<ConstructorItem>, k: nat, c: ConstructorItem)
    requires k <= |s|
    ensures ListSize(s[..k] + [c] + s[k..]) == ListSize(s) + Size(c)
  {
    assert s == s[..k] + s[k..];
    ListSizeAppend(s[..k], s[k..]);
    ListSizeAppend(s[..k] + [c], s[k..]);
    ListSizeAppend(s[..k], [c]);
    assert [c][1..] == [];
  }

  /** Corrected, pushing onto a group never panics when every song is known, and the item
      lands somewhere exactly when the widget is under the group: the editor grows by the
      item's size, or stays as it was. */
  lemma {:induction false} CorrectedPushKeepsItem(item: ConstructorItem, id: nat, songMap: SongMap, x: ConstructorItem)
    requires item.Operation? && KeysKnown(item, songMap)
    ensures PushedToId(item, id, songMap, x, Corrected).Done?
    ensures HasId(item, songMap, id) ==> Size(PushedToId(item, id, songMap, x, Corrected).value) == Size(item) + Size(x)
    ensures !HasId(item, songMap, id) ==> PushedToId(item, id, songMap, x, Corrected).value == item
    decreases item
  {
    var op := item.group;
    if op.id == id {
      ListSizeAppend(op.list, [x]);
      assert [x][1..] == [];
    } else {
      CorrectedScanFindsWidget(op, songMap, id, 0);
      HitFromIsFirst(op, songMap, id, Corrected, 0);
      match HitFrom(op, songMap, id, Corrected, 0)
      case Done(None) =>
      case Done(Some(k)) =>
        CorrectedHasIdFindsWidget(op.list[k], songMap, id);
        if op.list[k].Song? {
          ListSizeInsert(op.list, k, x);
        } else {
          CorrectedPushKeepsItem(op.list[k], id, songMap, x);
          ListSizeReplace(op.list, k, PushedToId(op.list[k], id, songMap, x, Corrected).value);
        }
    }
  }

  /** As written, a drop onto an empty group that follows a non-empty one is lost: the
      first group answers `item_has_id` with true, the search goes into it, finds nothing
      and stops. Corrected, the item lands in the empty group. */
  lemma AsWrittenPushLosesItem(a: SongID, b: SongID)
    ensures var root := Operation(SongOpConstructor(0, PlayOnce, [
                Operation(SongOpConstructor(1, PlayOnce, [Song(a)], true, false, 1)),
                Operation(SongOpConstructor(2, PlayOnce, [], true, false, 1))], true, false, 1));
            var songMap := map[a := 5];
            PushedToId(root, 2, songMap, Song(b), AsWritten) == Done(root) &&
            PushedToId(root, 2, songMap, Song(b), Corrected) == Done(Operation(SongOpConstructor(0, PlayOnce, [
                Operation(SongOpConstructor(1, PlayOnce, [Song(a)], true, false, 1)),
                Operation(SongOpConstructor(2, PlayOnce, [Song(b)], true, false, 1))], true, false, 1)))
  {
    var g1 := SongOpConstructor(1, PlayOnce, [Song(a)], true, false, 1);
    var g2 := SongOpConstructor(2, PlayOnce, [], true, false, 1);
    var g0 := SongOpConstructor(0, PlayOnce, [Operation(g1), Operation(g2)], true, false, 1);
    var songMap := map[a := 5];
    assert EvalAll(g1, songMap, 2, AsWritten, 1) == Done(());
    assert EvalAll(g1, songMap, 2, AsWritten, 0) == Done(());
    assert ItemHasId(Operation(g1), songMap, 2, AsWritten) == Done(true);
    assert HitFrom(g0, songMap, 2, AsWritten, 0) == Done(Some(0));
    assert HitFrom(g1, songMap, 2, AsWritten, 1) == Done(None);
    assert HitFrom(g1, songMap, 2, AsWritten, 0) == Done(None);
    assert PushedToId(Operation(g1), 2, songMap, Song(b), AsWritten) == Done(Operation(g1));
    assert g0.list[0 := Operation(g1)] == g0.list;

    assert HitFrom(g1, songMap, 2, Corrected, 1) == Done(None);
    assert HitFrom(g1, songMap, 2, Corrected, 0) == Done(None);
    assert ItemHasId(Operation(g1), songMap, 2, Corrected) == Done(false);
    assert ItemHasId(Operation(g2), songMap, 2, Corrected) == Done(true);
    assert HitFrom(g0, songMap, 2, Corrected, 1) == Done(Some(1));
    assert HitFrom(g0, songMap, 2, Corrected, 0) == Done(Some(1));
    assert PushedToId(Operation(g2), 2, songMap, Song(b), Corrected) == Done(Operation(Push(g2, Song(b))));
    assert Push(g2, Song(b)) == SongOpConstructor(2, PlayOnce, [Song(b)], true, false, 1);
    assert PushedToId(Operation(g0), 2, songMap, Song(b), Corrected) ==
           Done(Operation(g0.(list := g0.list[1 := Operation(Push(g2, Song(b)))])));
    assert g0.list[1 := Operation(Push(g2, Song(b)))] == [Operation(g1), Operation(Push(g2, Song(b)))];
  }
}
