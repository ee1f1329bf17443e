/** `NDJsonCache` and `FolderCache`: the in-memory maps in front of an NDJSON file and of a
    folder of files. Their readers are not part of the state modelled here. */
module BufferedCaches {
  import opened ItemCache

  /** `NDJsonCache<T>`'s map of loaded items. */
  class NDJsonCache<T> {
    var entries: map<string, T>

    /** `new`: nothing is loaded yet. */
    constructor ()
      ensures entries == map[]
    {
      entries := map[];
    }

    /** `items`. */
    function Items(): map<string, T>
      reads this
    {
      entries
    }

    /** `drop_from_cache`: `remove` each listed key in turn; an absent key changes nothing. */
    method DropFromCache(keys: seq<string>)
      modifies this
      ensures entries == Dropped(old(entries), keys)
    {
      var i := 0;
      while i < |keys|
        invariant 0 <= i <= |keys|
        invariant entries == Dropped(old(entries), keys[..i])
      {
        DroppedStep(old(entries), keys, i);
        entries := entries - {keys[i]};
        i := i + 1;
      }
      assert keys[..i] == keys;
    }

    /** `fetch_existing` over this cache; it reads the map and changes nothing. */
    function Fetch(ids: set<string>): (r: map<string, T>)
      reads this
      ensures r.Keys == entries.Keys * ids
      ensures forall k :: k in r ==> r[k] == entries[k]
    {
      FetchExistingEntries(entries, ids);
      FetchExisting(entries, ids)
    }
  }

  /** `FolderCache<T>`'s map of loaded items. */
  class FolderCache<T> {
    var entries: map<string, T>

    /** `new`: nothing is loaded yet. */
    constructor ()
      ensures entries == map[]
    {
      entries := map[];
    }

    /** `items`. */
    function Items(): map<string, T>
      reads this
    {
      entries
    }

    /** `drop_from_cache`: `remove` each listed id in turn; an absent id changes nothing. */
    method DropFromCache(ids: seq<string>)
      modifies this
      ensures entries == Dropped(old(entries), ids)
    {
      var i := 0;
      while i < |ids|
        invariant 0 <= i <= |ids|
        invariant entries == Dropped(old(entries), ids[..i])
      {
        DroppedStep(old(entries), ids, i);
        entries := entries - {ids[i]};
        i := i + 1;
      }
      assert ids[..i] == ids;
    }

    /** `fetch_existing` over this cache; it reads the map and changes nothing. */
    function Fetch(ids: set<string>): (r: map<string, T>)
      reads this
      ensures r.Keys == entries.Keys * ids
      ensures forall k :: k in r ==> r[k] == entries[k]
    {
      FetchExistingEntries(entries, ids);
      FetchExisting(entries, ids)
    }
  }
}
