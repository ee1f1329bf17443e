/** The default methods of `CacheReader` over the newer line reader: `read_filter` and
    `read_from_ids`, and what a caller sees after collecting the result into a map. */
module CacheReader {
  import opened Wrappers
  import opened Collections
  import opened NdjsonLines
  import opened AsyncLineReader
  import ItemCache

  /** The read items whose id is in `f`, each keyed by its id, in read order. */
  function Keyed(read: seq<LinePair>, f: set<string>): (r: seq<(string, LinePair)>)
    ensures |r| <= |read|
  {
    if |read| == 0 then []
    else Keyed(read[..|read| - 1], f) +
         (if read[|read| - 1].item.id in f then [(read[|read| - 1].item.id, read[|read| - 1])] else [])
  }

  /** `read_filter`: a read error is passed on. */
  function ReadFilter(file: File, f: set<string>): Result<seq<(string, LinePair)>, ReadError>
  {
    match ReadStrict(file)
    case Err(e) => Err(e)
    case Ok(read) => Ok(Keyed(read, f))
  }

  /** The `(id, item)` of each filtered entry (the `Arc::new(RwLock::new(item))` step). */
  function Project(v: seq<(string, LinePair)>): (r: seq<(string, Record)>)
    ensures |r| == |v|
  {
    seq(|v|, i requires 0 <= i < |v| => (v[i].1.item.id, v[i].1.item))
  }

  /** `read_from_ids`: nothing for no ids (the file is not read), nothing on a read error,
      otherwise `(id, item)` for each read item asked for. */
  function ReadFromIds(file: File, ids: set<string>): seq<(string, Record)>
  {
    if ids == {} then []
    else match ReadFilter(file, ids)
      case Err(_) => []
      case Ok(v) => Project(v)
  }

  /** `Keyed` keeps exactly the read items asked for, each under its own id. */
  lemma {:induction false} KeyedEntries(read: seq<LinePair>, f: set<string>)
    ensures forall e :: e in Keyed(read, f) <==> e.1 in read && e.1.item.id in f && e.0 == e.1.item.id
  {
    if |read| > 0 {
      var init := read[..|read| - 1];
      KeyedEntries(init, f);
      assert read == init + [read[|read| - 1]];
    }
  }

  /** The entries `read_from_ids` yields: `(k, r)` iff ids were asked for, the file read
      without error, and `r` was read under an id `k` asked for. */
  lemma ReadFromIdsEntries(file: File, ids: set<string>, k: string, r: Record)
    ensures (k, r) in ReadFromIds(file, ids) <==>
            ids != {} && ReadStrict(file).Ok? && k in ids && r.id == k &&
            exists p :: p in ReadStrict(file).value && p.item == r
    ensures ids == {} || ReadStrict(file).Err? ==> ReadFromIds(file, ids) == []
  {
    if ids != {} && ReadStrict(file).Ok? {
      var read := ReadStrict(file).value;
      var v := Keyed(read, ids);
      KeyedEntries(read, ids);
      var out := ReadFromIds(file, ids);
      if (k, r) in out {
        var i :| 0 <= i < |out| && out[i] == (k, r);
        assert v[i] in v;
      }
      if k in ids && r.id == k && exists p :: p in read && p.item == r {
        var p :| p in read && p.item == r;
        assert (k, p) in v;
        var i :| 0 <= i < |v| && v[i] == (k, p);
        assert out[i] == (k, r);
      }
    }
  }

  /** The last item read under id `k`, if any. */
  function LastWith(read: seq<LinePair>, k: string): Option<Record>
  {
    if |read| == 0 then None
    else if read[|read| - 1].item.id == k then Some(read[|read| - 1].item)
    else LastWith(read[..|read| - 1], k)
  }

  /** Some item is read under `k` exactly when `k` is an id of the read items; the last one
      carries it. */
  lemma {:induction false} LastWithFound(read: seq<LinePair>, k: string)
    ensures LastWith(read, k).Some? <==> k in IdsOf(read)
    ensures LastWith(read, k).Some? ==> LastWith(read, k).value.id == k
  {
    if |read| > 0 {
      var init := read[..|read| - 1];
      LastWithFound(init, k);
      IdsOfAppend(init, read[|read| - 1]);
      assert read == init + [read[|read| - 1]];
    }
  }

  /** Collected into a map (`to_rwmap`), the entries of `read_from_ids` hold each id asked
      for that the file has, with the LAST item read under it. */
  lemma {:induction false} CollectedReadKeepsLast(read: seq<LinePair>, f: set<string>, k: string)
    ensures k in ItemCache.ToRwMap(Project(Keyed(read, f))) <==> k in f && LastWith(read, k).Some?
    ensures k in ItemCache.ToRwMap(Project(Keyed(read, f))) ==>
              ItemCache.ToRwMap(Project(Keyed(read, f)))[k] == LastWith(read, k).value
  {
    if |read| > 0 {
      var init, last := read[..|read| - 1], read[|read| - 1];
      CollectedReadKeepsLast(init, f, k);
      var xs := Project(Keyed(init, f));
      if last.item.id in f {
        var ys := Project(Keyed(read, f));
        assert ys == xs + [(last.item.id, last.item)];
        assert ys[..|ys| - 1] == xs;
      } else {
        assert Keyed(read, f) == Keyed(init, f);
      }
    }
  }

  /** What a caller of `read_from_ids` finds for id `k` once the entries are in a map. */
  function Lookup(file: File, ids: set<string>, k: string): Option<Record>
  {
    var m := ItemCache.ToRwMap(ReadFromIds(file, ids));
    if k in m then Some(m[k]) else None
  }

  /** `Lookup` finds the last item read under an id asked for, and nothing when no ids were
      asked for or the file does not read. */
  lemma LookupFindsLast(file: File, ids: set<string>, k: string)
    ensures Lookup(file, ids, k) ==
            if ids != {} && k in ids && ReadStrict(file).Ok? then LastWith(ReadStrict(file).value, k) else None
  {
    if ids != {} && ReadStrict(file).Ok? {
      CollectedReadKeepsLast(ReadStrict(file).value, ids, k);
    }
  }

  /** The consequence of the newer reader appending an item already on file: extending a
      file holding `onFile` with `given` under the same id and without `overwrite`, then
      reading the id back, gives `given` as written, and `onFile` as corrected. */
  lemma KeepingReadsBackNewItem(onFile: Record, given: Record, order: seq<string>, order': seq<string>)
    requires onFile.id == given.id
    requires IsOrder(order, Merged(Some([ItemLine(onFile)]), [given], false, AsWritten).appended)
    requires IsOrder(order', Merged(Some([ItemLine(onFile)]), [given], false, Corrected).appended)
    ensures Lookup(Some(Written(Merged(Some([ItemLine(onFile)]), [given], false, AsWritten), order)), {onFile.id}, onFile.id) == Some(given)
    ensures Lookup(Some(Written(Merged(Some([ItemLine(onFile)]), [given], false, Corrected), order')), {onFile.id}, onFile.id) == Some(onFile)
  {
    AsWrittenKeepingReadsNew(onFile, given, order);
    CorrectedKeepingReadsOld(onFile, given, order');
  }

  lemma AsWrittenKeepingReadsNew(onFile: Record, given: Record, order: seq<string>)
    requires onFile.id == given.id
    requires IsOrder(order, Merged(Some([ItemLine(onFile)]), [given], false, AsWritten).appended)
    ensures Lookup(Some(Written(Merged(Some([ItemLine(onFile)]), [given], false, AsWritten), order)), {onFile.id}, onFile.id) == Some(given)
  {
    ReadItemLines(onFile, given);
    PendingOne(given);
    var pending := map[given.id := given];
    var rwA := Merged(Some([ItemLine(onFile)]), [given], false, AsWritten);
    assert rwA == Rewrite([ItemPair(onFile)], pending);
    OrderLength(order, pending);
    assert order[0] in pending;
    assert order == [given.id];
    var outA := Written(rwA, order);
    assert outA == [ItemLine(onFile), ItemLine(given)];
    LookupFindsLast(Some(outA), {onFile.id}, onFile.id);
    assert [ItemPair(onFile), ItemPair(given)][..1] == [ItemPair(onFile)];
  }

  lemma CorrectedKeepingReadsOld(onFile: Record, given: Record, order: seq<string>)
    requires onFile.id == given.id
    requires IsOrder(order, Merged(Some([ItemLine(onFile)]), [given], false, Corrected).appended)
    ensures Lookup(Some(Written(Merged(Some([ItemLine(onFile)]), [given], false, Corrected), order)), {onFile.id}, onFile.id) == Some(onFile)
  {
    ReadItemLines(onFile, given);
    PendingOne(given);
    var rwC := Merged(Some([ItemLine(onFile)]), [given], false, Corrected);
    assert IdsOf([ItemPair(onFile)]) == {onFile.id} by {
      assert [ItemPair(onFile)][0].item.id == onFile.id;
    }
    assert rwC.appended == map[];
    OrderLength(order, rwC.appended);
    var outC := Written(rwC, order);
    assert outC == [ItemLine(onFile)];
    LookupFindsLast(Some(outC), {onFile.id}, onFile.id);
  }
}
