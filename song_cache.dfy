/** `SongCache`: the map of loaded songs in front of `songs.ndjson`. Each cached song sits in
    a shared `Arc`, modelled by the song and the `Arc`'s strong count; the map itself holds
    one of the counts. The file is part of the state, as the lines it holds. */
module SongCaches {
  import opened Wrappers
  import opened Collections
  import opened NdjsonLines
  import LineReader
  import ItemCache
  import CacheReader

  /** A cached song and the strong count of its `Arc`. */
  datatype Shared = Shared(song: Record, refs: nat)

  type SongMap = map<string, Shared>

  /** Every entry is counted at least once, by the map itself. */
  predicate Counted(entries: SongMap)
  {
    forall k :: k in entries ==> entries[k].refs >= 1
  }

  /** `find_unused_songs`: the keys whose `Arc` nothing but the map holds. */
  function Unused(entries: SongMap): set<string>
  {
    set k | k in entries && entries[k].refs == 1
  }

  /** Songs put in the map each in a fresh `Arc` (`Arc::new(Mutex::new(song))`). */
  function Fresh(songs: map<string, Record>): SongMap
  {
    map k | k in songs :: Shared(songs[k], 1)
  }

  /** `new_arc` on each of `keys`: one more clone of each of their `Arc`s. */
  function Hold(entries: SongMap, keys: set<string>): SongMap
  {
    map k | k in entries :: if k in keys then Shared(entries[k].song, entries[k].refs + 1) else entries[k]
  }

  /** Dropping a map of clones taken with `new_arc` for `held`: one count fewer each (a count
      never drops below zero). */
  function Released(entries: SongMap, held: set<string>): SongMap
  {
    map k | k in entries :: if k in held && entries[k].refs > 0 then Shared(entries[k].song, entries[k].refs - 1) else entries[k]
  }

  /** The songs of `entries` under `keys`. */
  function Songs(entries: SongMap, keys: set<string>): map<string, Record>
  {
    map k | k in entries && k in keys :: entries[k].song
  }

  /** The `(id, song)` pairs `cache_from_ndjson` reads for `ids`, collected by id as
      `map.extend` does: the last song read under an id wins. */
  function Loaded(read: seq<LinePair>, ids: set<string>): map<string, Record>
  {
    ItemCache.ToRwMap(CacheReader.Project(CacheReader.Keyed(read, ids)))
  }

  /** The last song the file holds under `k`, if it can be opened. */
  function OnFile(file: File, k: string): Option<Record>
  {
    if file.Some? then CacheReader.LastWith(ReadSkipping(file.value), k) else None
  }

  /** `cache_from_ndjson`: no ids leave everything alone and the file unread; otherwise the
      file must open (`unwrap`), every song read under an id asked for goes into the map in
      a fresh `Arc`, and the result holds a clone of each. */
  function CacheFromNdjson(entries: SongMap, file: File, ids: set<string>): Exec<(map<string, Record>, SongMap)>
  {
    if ids == {} then Done((map[], entries))
    else if file.None? then Panics(UnwrapNone)
    else
      var hits := Loaded(ReadSkipping(file.value), ids);
      Done((hits, Hold(entries + Fresh(hits), hits.Keys)))
  }

  /** `fetch`: the songs asked for, as clones of their `Arc`s, and the map afterwards. An
      empty map loads everything asked for from the file; otherwise the cached ids are
      cloned and only the others are loaded. */
  function Fetched(entries: SongMap, file: File, ids: set<string>): Exec<(map<string, Record>, SongMap)>
  {
    if entries == map[] then CacheFromNdjson(entries, file, ids)
    else
      var cached := ids * entries.Keys;
      match CacheFromNdjson(entries, file, ids - entries.Keys)
      case Panics(p) => Panics(p)
      case Done(v) => Done((Songs(v.1, cached) + v.0, Hold(v.1, cached)))
  }

  /** What `CacheFromNdjson` loads: exactly the ids asked for that are on file, with the
      last song read under each; the map gains them with a count of two (the map and the
      result) and nothing else changes. It fails exactly when ids are asked for and the file
      cannot be opened. */
  lemma CacheFromNdjsonLoads(entries: SongMap, file: File, ids: set<string>)
    ensures CacheFromNdjson(entries, file, ids).Panics? <==> ids != {} && file.None?
    ensures CacheFromNdjson(entries, file, ids).Panics? ==> CacheFromNdjson(entries, file, ids).reason == UnwrapNone
    ensures CacheFromNdjson(entries, file, ids).Done? ==>
              var (hits, after) := CacheFromNdjson(entries, file, ids).value;
              (forall k :: k in hits <==> k in ids && OnFile(file, k).Some?) &&
              (forall k :: k in hits ==> hits[k] == OnFile(file, k).value) &&
              after.Keys == entries.Keys + hits.Keys &&
              (forall k :: k in hits ==> after[k] == Shared(hits[k], 2)) &&
              (forall k :: k in entries && k !in hits ==> after[k] == entries[k])
  {
    if ids != {} && file.Some? {
      var read := ReadSkipping(file.value);
      forall k ensures (k in Loaded(read, ids) <==> k in ids && OnFile(file, k).Some?) &&
                       (k in Loaded(read, ids) ==> Loaded(read, ids)[k] == OnFile(file, k).value) {
        CacheReader.CollectedReadKeepsLast(read, ids, k);
      }
    }
  }

  /** The songs `fetch` returns: an id asked for is returned iff it is cached or on file; a
      cached id gives the cached song, any other the last song on file under it. */
  lemma FetchedSongs(entries: SongMap, file: File, ids: set<string>)
    ensures Fetched(entries, file, ids).Panics? <==> file.None? && ids - entries.Keys != {}
    ensures Fetched(entries, file, ids).Done? ==>
              var r := Fetched(entries, file, ids).value.0;
              (forall k :: k in r <==> k in ids && (k in entries || OnFile(file, k).Some?)) &&
              (forall k :: k in r ==> r[k] == if k in entries then entries[k].song else OnFile(file, k).value)
  {
    if entries == map[] {
      assert ids - entries.Keys == ids;
      CacheFromNdjsonLoads(entries, file, ids);
    } else {
      CacheFromNdjsonLoads(entries, file, ids - entries.Keys);
    }
  }

  /** How the map `after` a fetch that returned `r` relates to the map before: every
      returned song is held once more than before (a song loaded from file, by the map and
      by the result), and any other entry is unchanged. */
  predicate CountsAfter(entries: SongMap, r: map<string, Record>, after: SongMap)
  {
    after.Keys == entries.Keys + r.Keys &&
    (forall k :: k in r ==> after[k].song == r[k]) &&
    (forall k :: k in r && k in entries ==> r[k] == entries[k].song) &&
    (forall k :: k in r ==> after[k].refs == if k in entries then entries[k].refs + 1 else 2) &&
    (forall k :: k in entries && k !in r ==> after[k] == entries[k])
  }

  /** The map after `fetch` counts the returned songs as `CountsAfter` says. */
  lemma FetchedCounts(entries: SongMap, file: File, ids: set<string>)
    requires Fetched(entries, file, ids).Done?
    ensures CountsAfter(entries, Fetched(entries, file, ids).value.0, Fetched(entries, file, ids).value.1)
  {
    FetchedSongs(entries, file, ids);
    if entries == map[] {
      assert ids - entries.Keys == ids;
      CacheFromNdjsonLoads(entries, file, ids);
    } else {
      CacheFromNdjsonLoads(entries, file, ids - entries.Keys);
    }
  }

  /** While the result of a `fetch` is held, none of its songs is unused; the others keep
      their standing. */
  lemma HeldAreUsed(entries: SongMap, file: File, ids: set<string>)
    requires Counted(entries)
    requires Fetched(entries, file, ids).Done?
    ensures Counted(Fetched(entries, file, ids).value.1)
    ensures Unused(Fetched(entries, file, ids).value.1) == Unused(entries) - Fetched(entries, file, ids).value.0.Keys
  {
    FetchedCounts(entries, file, ids);
    HeldCounts(entries, Fetched(entries, file, ids).value.0, Fetched(entries, file, ids).value.1);
  }

  lemma HeldCounts(entries: SongMap, r: map<string, Record>, after: SongMap)
    requires Counted(entries) && CountsAfter(entries, r, after)
    ensures Counted(after) && Unused(after) == Unused(entries) - r.Keys
  {
  }

  /** The fetched songs that were not cached before. */
  function NewlyLoaded(entries: SongMap, r: map<string, Record>): map<string, Record>
  {
    r - entries.Keys
  }

  /** Dropping the result of a `fetch` gives back the counts the cached songs had; the songs
      loaded from file stay in the map, unused. */
  lemma ReleaseRestores(entries: SongMap, file: File, ids: set<string>)
    requires Counted(entries)
    requires Fetched(entries, file, ids).Done?
    ensures var r := Fetched(entries, file, ids).value.0;
            Released(Fetched(entries, file, ids).value.1, r.Keys) == entries + Fresh(NewlyLoaded(entries, r))
    ensures var r := Fetched(entries, file, ids).value.0;
            Unused(Released(Fetched(entries, file, ids).value.1, r.Keys)) == Unused(entries) + (r.Keys - entries.Keys)
  {
    FetchedCounts(entries, file, ids);
    ReleaseCounts(entries, Fetched(entries, file, ids).value.0, Fetched(entries, file, ids).value.1);
  }

  lemma ReleaseCounts(entries: SongMap, r: map<string, Record>, after: SongMap)
    requires Counted(entries) && CountsAfter(entries, r, after)
    ensures Released(after, r.Keys) == entries + Fresh(NewlyLoaded(entries, r))
    ensures Unused(Released(after, r.Keys)) == Unused(entries) + (r.Keys - entries.Keys)
  {
    ReleaseEntries(entries, r, after);
    FreshAreUnused(entries, NewlyLoaded(entries, r));
  }

  lemma ReleaseEntries(entries: SongMap, r: map<string, Record>, after: SongMap)
    requires Counted(entries) && CountsAfter(entries, r, after)
    ensures Released(after, r.Keys) == entries + Fresh(NewlyLoaded(entries, r))
  {
    var rel := Released(after, r.Keys);
    var target := entries + Fresh(NewlyLoaded(entries, r));
    assert rel.Keys == target.Keys;
    forall k | k in rel ensures rel[k] == target[k] {
      if k in r {
        assert after[k].refs > 0;
        assert rel[k] == Shared(r[k], after[k].refs - 1);
        if k in entries {
          assert target[k] == entries[k];
        } else {
          assert target[k] == Shared(r[k], 1);
        }
      } else {
        assert rel[k] == after[k] == entries[k];
      }
    }
    assert rel == target;
  }

  /** The map after `extend_file`: each song appended to the file goes in again in a fresh
      `Arc`, replacing any entry it had. */
  function ExtendedEntries(entries: SongMap, file: File, songs: seq<Record>, overwrite: bool): SongMap
  {
    entries + Fresh(LineReader.Merged(file, songs, overwrite).appended)
  }

  /** Songs put in fresh `Arc`s are unused, replacing whatever was under their ids. */
  lemma FreshAreUnused(entries: SongMap, songs: map<string, Record>)
    requires Counted(entries)
    ensures Counted(entries + Fresh(songs))
    ensures Unused(entries + Fresh(songs)) == (Unused(entries) - songs.Keys) + songs.Keys
  {
  }

  /** The songs `extend_file` puts in the map are unused, and the map keeps every key it had. */
  lemma ExtendedAreUnused(entries: SongMap, file: File, songs: seq<Record>, overwrite: bool)
    requires Counted(entries)
    ensures var after := ExtendedEntries(entries, file, songs, overwrite);
            var added := LineReader.Merged(file, songs, overwrite).appended.Keys;
            Counted(after) && after.Keys == entries.Keys + added &&
            Unused(after) == (Unused(entries) - added) + added
  {
    FreshAreUnused(entries, LineReader.Merged(file, songs, overwrite).appended);
  }

  /** Two songs with distinct ids, collected by id. */
  lemma PendingTwo(a: Record, b: Record)
    requires a.id != b.id
    ensures Pending([a, b]) == map[a.id := a, b.id := b]
  {
    var pairs := seq(|[a, b]|, i requires 0 <= i < |[a, b]| => ([a, b][i].id, [a, b][i]));
    assert pairs == [(a.id, a), (b.id, b)];
    assert pairs[..1] == [(a.id, a)];
    assert pairs[..1][..0] == [];
    assert ToMap(pairs[..1]) == map[a.id := a];
    assert ToMap(pairs) == map[a.id := a][b.id := b];
  }

  /** A fresh cache after `extend_file` with two songs of distinct ids and no file yet. */
  lemma TwoStored(a: Record, b: Record)
    requires a.id != b.id
    ensures ExtendedEntries(map[], None, [a, b], false) == map[a.id := Shared(a, 1), b.id := Shared(b, 1)]
    ensures Unused(ExtendedEntries(map[], None, [a, b], false)) == {a.id, b.id}
  {
    PendingTwo(a, b);
    var e := ExtendedEntries(map[], None, [a, b], false);
    assert e == map[a.id := Shared(a, 1), b.id := Shared(b, 1)];
  }

  /** Extending a fresh cache with no file twice with the same songs, without `overwrite`:
      the map and the file both hold exactly the songs' ids. */
  lemma ExtendTwiceFromNothing(songs: seq<Record>, order1: seq<string>, order2: seq<string>)
    requires IsOrder(order1, LineReader.Merged(None, songs, false).appended)
    requires IsOrder(order2, LineReader.Merged(Some(Written(LineReader.Merged(None, songs, false), order1)), songs, false).appended)
    ensures var file1 := Some(Written(LineReader.Merged(None, songs, false), order1));
            ExtendedEntries(ExtendedEntries(map[], None, songs, false), file1, songs, false).Keys == LineReader.ItemIds(songs) &&
            IdsOf(ReadSkipping(Written(LineReader.Merged(file1, songs, false), order2))) == LineReader.ItemIds(songs)
  {
    var file1 := Some(Written(LineReader.Merged(None, songs, false), order1));
    LineReader.ExtendIds(None, songs, false, order1);
    LineReader.ExtendIds(file1, songs, false, order2);
    SecondExtendAddsNothing(songs, file1, order2);
    PendingLastWins(songs);
    assert LineReader.Merged(None, songs, false).appended == Pending(songs);
  }

  lemma SecondExtendAddsNothing(songs: seq<Record>, file1: File, order2: seq<string>)
    requires IdsOf(LineReader.ReadOrEmpty(file1)) == LineReader.ItemIds(songs)
    requires IsOrder(order2, LineReader.Merged(file1, songs, false).appended)
    ensures LineReader.Merged(file1, songs, false).appended == map[]
  {
    LineReader.KeepingLeavesOldLines(file1, songs, order2);
  }

  /** The `fetching` test: extending a fresh cache (no file yet) with some songs twice without
      `overwrite`, then fetching their ids together with ids of songs never stored, returns
      exactly the stored songs. */
  lemma FetchingScenario(songs: seq<Record>, missing: set<string>, order1: seq<string>, order2: seq<string>)
    requires missing !! LineReader.ItemIds(songs)
    requires IsOrder(order1, LineReader.Merged(None, songs, false).appended)
    requires IsOrder(order2, LineReader.Merged(Some(Written(LineReader.Merged(None, songs, false), order1)), songs, false).appended)
    ensures var file1 := Some(Written(LineReader.Merged(None, songs, false), order1));
            var entries2 := ExtendedEntries(ExtendedEntries(map[], None, songs, false), file1, songs, false);
            var file2 := Some(Written(LineReader.Merged(file1, songs, false), order2));
            var ids := LineReader.ItemIds(songs) + missing;
            Fetched(entries2, file2, ids).Done? &&
            Fetched(entries2, file2, ids).value.0.Keys == LineReader.ItemIds(songs)
  {
    var file1 := Some(Written(LineReader.Merged(None, songs, false), order1));
    ExtendTwiceFromNothing(songs, order1, order2);
    var entries2 := ExtendedEntries(ExtendedEntries(map[], None, songs, false), file1, songs, false);
    var file2 := Some(Written(LineReader.Merged(file1, songs, false), order2));
    FetchFindsOnly(entries2, file2, LineReader.ItemIds(songs), missing);
  }

  /** Fetching ids some of which are neither cached nor on file, from a map and a file that
      both hold exactly `stored`, returns exactly `stored`. */
  lemma FetchFindsOnly(entries: SongMap, file: File, stored: set<string>, missing: set<string>)
    requires file.Some? && entries.Keys == stored && IdsOf(ReadSkipping(file.value)) == stored
    requires missing !! stored
    ensures Fetched(entries, file, stored + missing).Done?
    ensures Fetched(entries, file, stored + missing).value.0.Keys == stored
  {
    FetchedSongs(entries, file, stored + missing);
    forall k | k in missing ensures OnFile(file, k).None? {
      CacheReader.LastWithFound(ReadSkipping(file.value), k);
    }
  }

  /** The `checking_unused` test: after two songs are stored in a fresh cache, fetching both
      and dropping the result leaves both unused; holding a fetch of the first leaves only
      the second unused, and dropping it leaves both unused again. */
  lemma CheckingUnusedScenario(a: Record, b: Record, file: File)
    requires a.id != b.id
    ensures var e := ExtendedEntries(map[], None, [a, b], false);
            var both := Fetched(e, file, {a.id, b.id});
            both.Done? && Released(both.value.1, both.value.0.Keys) == e
    ensures var e := ExtendedEntries(map[], None, [a, b], false);
            var first := Fetched(e, file, {a.id});
            first.Done? && Unused(first.value.1) == {b.id} &&
            Unused(Released(first.value.1, first.value.0.Keys)) == {a.id, b.id}
  {
    TwoStored(a, b);
    var e := ExtendedEntries(map[], None, [a, b], false);
    FetchCachedReleases(e, file, {a.id, b.id});
    FetchCachedReleases(e, file, {a.id});
    HeldAreUsed(e, file, {a.id});
  }

  /** Fetching only cached ids and then dropping the result leaves the map as it was. */
  lemma FetchCachedReleases(entries: SongMap, file: File, ids: set<string>)
    requires Counted(entries) && ids <= entries.Keys
    ensures Fetched(entries, file, ids).Done?
    ensures Fetched(entries, file, ids).value.0.Keys == ids
    ensures Released(Fetched(entries, file, ids).value.1, ids) == entries
  {
    FetchedSongs(entries, file, ids);
    ReleaseRestores(entries, file, ids);
    var r := Fetched(entries, file, ids).value.0;
    assert NewlyLoaded(entries, r) == map[];
    assert Fresh(map[]) == map[];
  }

  /** The `dropping` test: after two songs are stored in a fresh cache both are unused;
      dropping the first leaves the second, and dropping what is unused leaves nothing. */
  lemma DroppingScenario(a: Record, b: Record)
    requires a.id != b.id
    ensures var e := ExtendedEntries(map[], None, [a, b], false);
            Unused(e) == {a.id, b.id} &&
            Unused(ItemCache.Dropped(e, [a.id])) == {b.id} &&
            Unused(ItemCache.Dropped(ItemCache.Dropped(e, [a.id]), [b.id])) == {}
  {
    TwoStored(a, b);
    assert (set k | k in [a.id]) == {a.id};
    assert (set k | k in [b.id]) == {b.id};
  }

  /** `SongCache`: the map of loaded songs and the NDJSON file behind it. */
  class SongCache {
    var entries: SongMap
    var file: File

    /** `Default`, with `file` as the contents of `filepath`: nothing is loaded yet. */
    constructor (file: File)
      ensures entries == map[] && this.file == file
    {
      entries := map[];
      this.file := file;
    }

    /** `find_unused_songs`. */
    function UnusedSongs(): set<string>
      reads this
    {
      Unused(entries)
    }

    /** `drop_from_cache`: `remove` each listed key in turn. */
    method DropFromCache(keys: seq<string>)
      modifies this
      ensures entries == ItemCache.Dropped(old(entries), keys) && file == old(file)
    {
      var i := 0;
      while i < |keys|
        invariant 0 <= i <= |keys|
        invariant entries == ItemCache.Dropped(old(entries), keys[..i]) && file == old(file)
      {
        ItemCache.DroppedStep(old(entries), keys, i);
        entries := entries - {keys[i]};
        i := i + 1;
      }
      assert keys[..i] == keys;
    }

    /** `cache_from_ndjson`. */
    method CacheFromFile(ids: set<string>) returns (r: Exec<map<string, Record>>)
      modifies this
      ensures CacheFromNdjson(old(entries), old(file), ids).Panics? ==> r.Panics? && r.reason == UnwrapNone
      ensures CacheFromNdjson(old(entries), old(file), ids).Done? ==>
                r == Done(CacheFromNdjson(old(entries), old(file), ids).value.0) &&
                entries == CacheFromNdjson(old(entries), old(file), ids).value.1
      ensures r.Panics? ==> entries == old(entries)
      ensures file == old(file)
    {
      if ids == {} {
        return Done(map[]);
      }
      if file.None? {
        return Panics(UnwrapNone);
      }
      var hits := Loaded(ReadSkipping(file.value), ids);
      entries := entries + Fresh(hits);
      entries := Hold(entries, hits.Keys);
      return Done(hits);
    }

    /** `fetch`. */
    method Fetch(ids: set<string>) returns (r: Exec<map<string, Record>>)
      modifies this
      ensures r.Panics? <==> Fetched(old(entries), old(file), ids).Panics?
      ensures r.Done? ==> r.value == Fetched(old(entries), old(file), ids).value.0 &&
                          entries == Fetched(old(entries), old(file), ids).value.1
      ensures r.Panics? ==> entries == old(entries)
      ensures file == old(file)
    {
      if entries == map[] {
        r := CacheFromFile(ids);
        return;
      }
      var cached := ids * entries.Keys;
      var notCached := ids - entries.Keys;
      var fromFile: map<string, Record> := map[];
      if notCached != {} {
        var got := CacheFromFile(notCached);
        if got.Panics? {
          return got;
        }
        fromFile := got.value;
      }
      var clones := Songs(entries, cached);
      entries := Hold(entries, cached);
      return Done(clones + fromFile);
    }

    /** `extend_file`: the song file is rewritten as `extend` does, and each song appended
        to it also goes into the map in a fresh `Arc`, in the same loop. */
    method ExtendFile(songs: seq<Record>, overwrite: bool) returns (order: seq<string>)
      modifies this
      ensures IsOrder(order, LineReader.Merged(old(file), songs, overwrite).appended)
      ensures file == Some(Written(LineReader.Merged(old(file), songs, overwrite), order))
      ensures entries == ExtendedEntries(old(entries), old(file), songs, overwrite)
    {
      var pending := CollectById(songs);
      var kept: seq<LinePair> := [];
      if file.Some? {
        kept, pending := LineReader.FilterFileItems(ReadSkipping(file.value), overwrite, pending);
      }
      ghost var rw := Rewrite(kept, pending);
      assert rw == LineReader.Merged(old(file), songs, overwrite);
      var head := WriteLines(kept);
      var tail;
      tail, order := StoreAppended(pending);
      LinesOfAppend(kept, AppendedPairs(pending, order));
      file := Some(head + tail);
    }

    /** The second loop of `extend_file`: each remaining song written to the file and put in
        the map, in the order the map yields them. */
    method StoreAppended(pending: map<string, Record>) returns (tail: seq<FileLine>, order: seq<string>)
      modifies this`entries
      ensures IsOrder(order, pending)
      ensures tail == LinesOf(AppendedPairs(pending, order))
      ensures entries == old(entries) + Fresh(pending)
    {
      tail := [];
      order := [];
      var base, stored := entries, entries;
      var rest := pending.Keys;
      while rest != {}
        invariant rest <= pending.Keys
        invariant NoDuplicates(order)
        invariant forall k :: k in order <==> k in pending && k !in rest
        invariant tail == LinesOf(AppendedPairs(pending, order))
        invariant stored == base + Fresh(pending - rest)
        decreases |rest|
      {
        var k :| k in rest;
        assert AppendedPairs(pending, order + [k]) == AppendedPairs(pending, order) + [ItemPair(pending[k])];
        LinesOfAppend(AppendedPairs(pending, order), [ItemPair(pending[k])]);
        FreshStep(base, pending, rest, k);
        tail := tail + [Line(pending[k].json, Some(pending[k]))];
        stored := stored[k := Shared(pending[k], 1)];
        order := order + [k];
        rest := rest - {k};
      }
      assert pending - {} == pending;
      entries := stored;
    }
  }

  /** One more song put in the map by the `extend_file` loop. */
  lemma FreshStep(base: SongMap, pending: map<string, Record>, rest: set<string>, k: string)
    requires k in rest && rest <= pending.Keys
    ensures base + Fresh(pending - (rest - {k})) == (base + Fresh(pending - rest))[k := Shared(pending[k], 1)]
  {
  }
}
