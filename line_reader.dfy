/** `LineBasedReader` (the synchronous reader) and the song file code that shares its logic
    (`SongCache::extend`, `extend_file`, `filter_file_songs`): merging new items into an
    NDJSON file. */
module LineReader {
  import opened Wrappers
  import opened NdjsonLines

  /** What `filter_file_items` leaves: the file lines it lets through, and the pending map
      it was given, which it edits. With `overwrite` a line whose id is pending is dropped
      (the new item will be appended); without it every line survives and a pending item
      already on file is taken out of the map. */
  function Filtered(pairs: seq<LinePair>, overwrite: bool, pending: map<string, Record>): (seq<LinePair>, map<string, Record>)
  {
    if overwrite then (WithoutIds(pairs, pending.Keys), pending)
    else (pairs, pending - IdsOf(pairs))
  }

  /** `filter_file_items`: one line at a time, removing pending ids as they are found on
      file. */
  method FilterFileItems(pairs: seq<LinePair>, overwrite: bool, pending: map<string, Record>)
    returns (kept: seq<LinePair>, rest: map<string, Record>)
    ensures (kept, rest) == Filtered(pairs, overwrite, pending)
  {
    kept := [];
    rest := pending;
    var i := 0;
    while i < |pairs|
      invariant 0 <= i <= |pairs|
      invariant kept == if overwrite then WithoutIds(pairs[..i], pending.Keys) else pairs[..i]
      invariant rest == if overwrite then pending else pending - IdsOf(pairs[..i])
    {
      var id := pairs[i].item.id;
      assert pairs[..i + 1] == pairs[..i] + [pairs[i]];
      assert pairs[..i + 1][..i] == pairs[..i];
      IdsOfAppend(pairs[..i], pairs[i]);
      if overwrite {
        if id !in rest {
          kept := kept + [pairs[i]];
        }
      } else {
        if id in rest {
          rest := rest - {id};
        }
        kept := kept + [pairs[i]];
      }
      i := i + 1;
    }
    assert pairs[..i] == pairs;
  }

  /** The file `extend` writes, as the surviving old lines and the items appended after
      them. A file that cannot be read contributes nothing. */
  function Merged(file: File, items: seq<Record>, overwrite: bool): Rewrite
  {
    match file
    case None => Rewrite([], Pending(items))
    case Some(lines) =>
      var (kept, rest) := Filtered(ReadSkipping(lines), overwrite, Pending(items));
      Rewrite(kept, rest)
  }

  /** The items read from a file, or none when it cannot be opened. */
  function ReadOrEmpty(file: File): seq<LinePair>
  {
    if file.Some? then ReadSkipping(file.value) else []
  }

  /** `extend`: collect the items by id, filter the old lines through them, write the
      survivors and then the remaining items, in the order the map yields them. */
  method Extend(file: File, items: seq<Record>, overwrite: bool) returns (out: seq<FileLine>, order: seq<string>)
    ensures IsOrder(order, Merged(file, items, overwrite).appended)
    ensures out == Written(Merged(file, items, overwrite), order)
  {
    var pending := CollectById(items);
    var kept: seq<LinePair> := [];
    if file.Some? {
      kept, pending := FilterFileItems(ReadSkipping(file.value), overwrite, pending);
    }
    out, order := WriteRewrite(Rewrite(kept, pending));
  }

  /** The ids of a list of items. */
  function ItemIds(items: seq<Record>): set<string>
  {
    set i | 0 <= i < |items| :: items[i].id
  }

  /** After `extend` no id is both kept and appended, and the ids in the file are those
      that were in it (as far as it could be read) together with those of the new items. */
  lemma MergedIds(file: File, items: seq<Record>, overwrite: bool)
    ensures var rw := Merged(file, items, overwrite);
            IdsOf(rw.kept) !! rw.appended.Keys &&
            IdsOf(rw.kept) + rw.appended.Keys == IdsOf(ReadOrEmpty(file)) + ItemIds(items) &&
            KeyedById(rw.appended)
  {
    PendingLastWins(items);
    var read := ReadOrEmpty(file);
    if file.Some? && overwrite {
      var kept := WithoutIds(read, Pending(items).Keys);
      WithoutIdsMembers(read, Pending(items).Keys);
      forall x | x in IdsOf(read) ensures x in IdsOf(kept) + Pending(items).Keys {
        var i :| 0 <= i < |read| && read[i].item.id == x;
        if x !in Pending(items).Keys {
          assert read[i] in kept;
          var j :| 0 <= j < |kept| && kept[j] == read[i];
        }
      }
      forall x | x in IdsOf(kept) ensures x in IdsOf(read) && x !in Pending(items).Keys {
        var j :| 0 <= j < |kept| && kept[j].item.id == x;
        assert kept[j] in read;
        var i :| 0 <= i < |read| && read[i] == kept[j];
      }
    }
  }

  /** Reading the new file back gives the ids of the old file and of the new items, each
      once if no id occurred twice in the old file. */
  lemma ExtendIds(file: File, items: seq<Record>, overwrite: bool, order: seq<string>)
    requires IsOrder(order, Merged(file, items, overwrite).appended)
    ensures IdsOf(ReadSkipping(Written(Merged(file, items, overwrite), order))) == IdsOf(ReadOrEmpty(file)) + ItemIds(items)
    ensures UniqueIds(ReadOrEmpty(file)) ==> UniqueIds(ReadSkipping(Written(Merged(file, items, overwrite), order)))
  {
    var rw := Merged(file, items, overwrite);
    MergedIds(file, items, overwrite);
    RewriteIds(rw, order);
    if UniqueIds(ReadOrEmpty(file)) {
      if overwrite && file.Some? {
        WithoutIdsUnique(ReadOrEmpty(file), Pending(items).Keys);
      }
      RewriteUnique(rw, order);
    }
  }

  /** With `overwrite`, every item read back from the file under a new item's id is that
      new item (the last one given with the id): the old lines for it are gone. */
  lemma OverwriteReplaces(file: File, items: seq<Record>, order: seq<string>, k: string)
    requires IsOrder(order, Merged(file, items, true).appended)
    requires k in ItemIds(items)
    ensures k in Pending(items)
    ensures forall p :: p in ReadSkipping(Written(Merged(file, items, true), order)) && p.item.id == k ==>
              p.item == Pending(items)[k]
    ensures exists p :: p in ReadSkipping(Written(Merged(file, items, true), order)) && p.item.id == k
  {
    PendingLastWins(items);
    MergedIds(file, items, true);
    RewriteLookup(Merged(file, items, true), order, k);
  }

  /** Without `overwrite`, every line that could be read stays as it was, in its place, and
      only items whose id is not yet on file are appended. */
  lemma KeepingLeavesOldLines(file: File, items: seq<Record>, order: seq<string>)
    requires IsOrder(order, Merged(file, items, false).appended)
    ensures var r := ReadSkipping(Written(Merged(file, items, false), order));
            |ReadOrEmpty(file)| <= |r| && r[..|ReadOrEmpty(file)|] == ReadOrEmpty(file)
    ensures Merged(file, items, false).appended.Keys == ItemIds(items) - IdsOf(ReadOrEmpty(file))
  {
    PendingLastWins(items);
    var rw := Merged(file, items, false);
    ReadBackRewrite(rw, order);
    assert (rw.kept + AppendedPairs(rw.appended, order))[..|rw.kept|] == rw.kept;
  }

  lemma {:induction false} WithoutIdsUnique(pairs: seq<LinePair>, keys: set<string>)
    requires UniqueIds(pairs)
    ensures UniqueIds(WithoutIds(pairs, keys))
  {
    if |pairs| > 0 {
      var init := pairs[..|pairs| - 1];
      var last := pairs[|pairs| - 1];
      WithoutIdsUnique(init, keys);
      WithoutIdsMembers(init, keys);
      var w := WithoutIds(pairs, keys);
      var w0 := WithoutIds(init, keys);
      if last.item.id !in keys {
        forall i | 0 <= i < |w0| ensures w0[i].item.id != last.item.id {
          assert w0[i] in init;
          var k :| 0 <= k < |init| && init[k] == w0[i];
          assert pairs[k] == init[k];
        }
        assert w == w0 + [last];
      }
    }
  }

  /** Extending a file a second time with the same items, without overwriting, leaves it
      exactly as the first time made it, whatever order the map yields. */
  lemma ExtendTwiceKeeps(file: File, items: seq<Record>, order1: seq<string>, order2: seq<string>)
    requires IsOrder(order1, Merged(file, items, false).appended)
    requires IsOrder(order2, Merged(Some(Written(Merged(file, items, false), order1)), items, false).appended)
    ensures Written(Merged(Some(Written(Merged(file, items, false), order1)), items, false), order2) ==
            Written(Merged(file, items, false), order1)
  {
    var out1 := Written(Merged(file, items, false), order1);
    ExtendIds(file, items, false, order1);
    PendingLastWins(items);
    ReadAllParsed(out1);
    var rw2 := Merged(Some(out1), items, false);
    assert rw2.appended == map[];
    OrderLength(order2, rw2.appended);
    assert rw2.kept + AppendedPairs(rw2.appended, order2) == rw2.kept;
  }
}
