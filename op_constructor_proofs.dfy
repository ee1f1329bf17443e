/** What editing and building a playlist promise. */
module OpConstructorProofs {
  import opened Wrappers
  import opened Collections
  import opened Randomness
  import opened OpConstructor
  import SongOps
  import SongOperations
  import SongOperationsProofs

  /** The editor kind a built program has. */
  function KindOf(op: SongOps.RecursiveSongOp): Option<ActualRecursiveOps>
  {
    match op
    case SinglePlay(_) => None
    case PlayOnce(_) => Some(PlayOnce)
    case LoopNTimes(_, _) => Some(LoopNTimes)
    case Stretch(_, _) => Some(Stretch)
    case InfiniteLoop(_) => Some(InfiniteLoop)
    case RandomPlay(_) => Some(RandomPlay)
    case SingleRandom(_) => Some(SingleRandom)
    case InfiniteRandom(_) => Some(InfiniteRandom)
  }

  /** `build` has the kind the editor shows, one child per row in row order (a song row a
      `SinglePlay` of that song), and the count exactly when the kind takes one. */
  lemma BuildShape(c: SongOpConstructor)
    ensures KindOf(Build(c)) == Some(c.operation)
    ensures |Build(c).ops| == |c.list|
    ensures forall i :: 0 <= i < |c.list| ==> Build(c).ops[i] == BuildItem(c.list[i])
    ensures forall i :: 0 <= i < |c.list| && c.list[i].Song? ==>
              Build(c).ops[i] == SongOps.SinglePlay(c.list[i].key)
    ensures Build(c).LoopNTimes? || Build(c).Stretch? ==> Build(c).n == c.n
  {
  }

  /** Which messages edit the header of a group rather than its rows. */
  predicate EditsHeader(msg: SongOpMessage)
  {
    msg.ChangeOperation? || msg.Collapse? || msg.Uncollapse? || msg.ChangeN?
  }

  /** No message changes a group's widget id or whether it can collapse; header messages
      leave the rows alone and row messages leave the header alone. */
  lemma UpdateFrame(c: SongOpConstructor, msg: SongOpMessage, newId: nat)
    ensures Update(c, msg, newId).Done? ==>
              var r := Update(c, msg, newId).value;
              r.id == c.id && r.collapsible == c.collapsible &&
              (EditsHeader(msg) ==> r.list == c.list) &&
              (!EditsHeader(msg) ==> r.operation == c.operation && r.collapsed == c.collapsed && r.n == c.n)
  {
  }

  /** Each header message sets its own field, and `CloseSelf`, `Generate` and `Null` change
      nothing. */
  lemma SettersChangeOwnField(c: SongOpConstructor, op: ActualRecursiveOps, n: u32, newId: nat)
    ensures Update(c, ChangeOperation(op), newId) == Done(c.(operation := op))
    ensures Update(c, Collapse, newId) == Done(c.(collapsed := true))
    ensures Update(c, Uncollapse, newId) == Done(c.(collapsed := false))
    ensures Update(c, ChangeN(n), newId) == Done(c.(n := n))
    ensures Update(c, CloseSelf, newId) == Done(c)
    ensures Update(c, Generate, newId) == Done(c)
    ensures Update(c, Null, newId) == Done(c)
  {
  }

  /** `Add` appends a child to the built program. */
  lemma BuildAfterAdd(c: SongOpConstructor, item: ConstructorItem, newId: nat)
    ensures Update(c, Add(item), newId).Done?
    ensures Build(Update(c, Add(item), newId).value).ops == Build(c).ops + [BuildItem(item)]
    ensures KindOf(Build(Update(c, Add(item), newId).value)) == KindOf(Build(c))
  {
    var r := Update(c, Add(item), newId).value;
    assert Build(r).ops == Build(c).ops + [BuildItem(item)] by {
      BuildShape(r);
      BuildShape(c);
    }
  }

  /** `NewGroup` appends an empty `PlayOnce` child to the built program. */
  lemma BuildAfterNewGroup(c: SongOpConstructor, newId: nat)
    ensures Update(c, NewGroup, newId).Done?
    ensures Build(Update(c, NewGroup, newId).value).ops == Build(c).ops + [SongOps.PlayOnce([])]
  {
    BuildAfterAdd(c, Operation(Default(newId)), newId);
    assert BuildItem(Operation(Default(newId))) == SongOps.PlayOnce([]);
  }

  /** `Remove(idx)` drops the `idx`-th child of the built program, and panics past the end. */
  lemma BuildAfterRemove(c: SongOpConstructor, idx: nat, newId: nat)
    ensures Update(c, Remove(idx), newId).Done? <==> idx < |c.list|
    ensures idx < |c.list| ==>
              Build(Update(c, Remove(idx), newId).value).ops == Build(c).ops[..idx] + Build(c).ops[idx + 1..]
  {
    if idx < |c.list| {
      var r := Update(c, Remove(idx), newId).value;
      BuildShape(r);
      BuildShape(c);
      var want := Build(c).ops[..idx] + Build(c).ops[idx + 1..];
      assert |Build(r).ops| == |want|;
      forall i | 0 <= i < |want| ensures Build(r).ops[i] == want[i] {
        if i < idx {
          assert r.list[i] == c.list[i];
        } else {
          assert r.list[i] == c.list[i + 1];
        }
      }
    }
  }

  /** A message for a nested group rebuilds only that child of the built program. */
  lemma BuildAfterNestedUpdate(c: SongOpConstructor, idx: nat, inner: SongOpMessage, newId: nat)
    requires idx < |c.list| && c.list[idx].Operation? && !inner.CloseSelf?
    requires Update(c.list[idx].group, inner, newId).Done?
    ensures Update(c, ItemMessage(idx, OperationMessage(inner)), newId).Done?
    ensures Build(Update(c, ItemMessage(idx, OperationMessage(inner)), newId).value).ops ==
              Build(c).ops[idx := Build(Update(c.list[idx].group, inner, newId).value)]
  {
    var r := Update(c, ItemMessage(idx, OperationMessage(inner)), newId).value;
    BuildShape(r);
    BuildShape(c);
    var want := Build(c).ops[idx := Build(Update(c.list[idx].group, inner, newId).value)];
    forall i | 0 <= i < |want| ensures Build(r).ops[i] == want[i] {
      if i != idx { assert r.list[i] == c.list[i]; }
    }
  }

  /** The count reaches the built program only through `LoopNTimes` and `Stretch`. */
  lemma BuildIgnoresUnusedCount(c: SongOpConstructor, n: u32, newId: nat)
    requires c.operation != LoopNTimes && c.operation != Stretch
    ensures Build(Update(c, ChangeN(n), newId).value) == Build(c)
  {
    var r := Update(c, ChangeN(n), newId).value;
    assert r.list == c.list;
    assert forall i :: 0 <= i < |c.list| ==> Build(r).ops[i] == Build(c).ops[i];
  }

  /** Only `PlayOnce` groups, at every depth. */
  predicate AllPlayOnce(c: SongOpConstructor)
    decreases c, 1
  {
    c.operation == PlayOnce && forall i | 0 <= i < |c.list| :: AllPlayOnceItem(c.list[i])
  }

  predicate AllPlayOnceItem(item: ConstructorItem)
    decreases item, 0
  {
    item.Song? || AllPlayOnce(item.group)
  }

  /** The songs of a group, in the order its rows show them, nested groups expanded. */
  function SongsOf(c: SongOpConstructor): seq<SongOps.IDKey>
    decreases c, 1
  {
    Flatten(seq(|c.list|, i requires 0 <= i < |c.list| => ItemSongs(c.list[i])))
  }

  function ItemSongs(item: ConstructorItem): seq<SongOps.IDKey>
    decreases item, 0
  {
    match item
    case Song(id) => [id]
    case Operation(g) => SongsOf(g)
  }

  /** A playlist made only of `PlayOnce` groups plays its songs as the editor lists them,
      whatever the random answers. */
  lemma {:induction false} PlayOnceBuildPlaysListedSongs(c: SongOpConstructor, d: Dice)
    requires AllPlayOnce(c)
    ensures SongOperations.Play(Build(c), d) == SongOperations.Playback(SongsOf(c), SongOperations.Exhausted)
    decreases c, 1
  {
    var ops := Build(c).ops;
    SongOperationsProofs.PlayOnceConcatenates(ops, d);
    var parts := SongOperationsProofs.InOrder(ops, d);
    forall k | 0 <= k < |ops|
      ensures parts[k] == SongOperations.Playback(ItemSongs(c.list[k]), SongOperations.Exhausted)
    {
      ItemPlaysListedSongs(c.list[k], Kid(d, k));
    }
    SongOperations.ChainOfExhausted(parts, SongOperations.Exhausted);
    assert SongOperations.IdsOf(parts) == seq(|c.list|, i requires 0 <= i < |c.list| => ItemSongs(c.list[i]));
  }

  lemma {:induction false} ItemPlaysListedSongs(item: ConstructorItem, d: Dice)
    requires AllPlayOnceItem(item)
    ensures SongOperations.Play(BuildItem(item), d) == SongOperations.Playback(ItemSongs(item), SongOperations.Exhausted)
    decreases item, 0
  {
    match item
    case Song(_) =>
    case Operation(g) => PlayOnceBuildPlaysListedSongs(g, d);
  }
}
