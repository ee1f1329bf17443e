/** `CacheInterface`: a map of songs handed over from the song cache, with the set of its
    keys kept beside it. Songs are modelled by their values; the `Arc` counts are not
    tracked here. */
module CacheInterfaces {
  import opened Wrappers
  import opened NdjsonLines
  import ItemCache

  /** The two fields of a `CacheInterface`. */
  datatype Interface = Interface(cache: map<string, Record>, keys: set<string>)

  /** The key set describes the map. */
  predicate Consistent(s: Interface)
  {
    s.keys == s.cache.Keys
  }

  /** `get`: a clone of each song asked for whose key is in the key set; indexing the map
      with a key it does not hold panics. */
  function Get(s: Interface, ids: set<string>): Exec<map<string, Record>>
  {
    if ids * s.keys <= s.cache.Keys then Done(map k | k in ids * s.keys :: s.cache[k])
    else Panics(MissingKey)
  }

  /** `extend`: the new songs join the map, replacing any under the same key, and their keys
      join the key set. */
  function Extended(s: Interface, songs: map<string, Record>): Interface
  {
    Interface(s.cache + songs, s.keys + songs.Keys)
  }

  /** `pop`: the listed songs are taken out of the map and returned. As written the key set
      becomes the keys of the songs taken out; `Corrected` keeps it the keys of the map. */
  function Popped(s: Interface, list: seq<string>, rev: Revision): (map<string, Record>, Interface)
  {
    var taken := ItemCache.FetchExisting(s.cache, ItemCache.KeySet(list));
    var rest := ItemCache.Dropped(s.cache, list);
    (taken, Interface(rest, if rev == AsWritten then taken.Keys else rest.Keys))
  }

  /** `replace`. */
  function Replaced(songs: map<string, Record>): Interface
  {
    Interface(songs, songs.Keys)
  }

  /** `len`: the size of the key set. */
  function Len(s: Interface): nat
  {
    |s.keys|
  }

  /** On a consistent interface `get` never panics and returns exactly the songs of the map
      asked for, and `len` is the number of songs in the map. */
  lemma ConsistentGet(s: Interface, ids: set<string>)
    requires Consistent(s)
    ensures Get(s, ids) == Done(ItemCache.FetchExisting(s.cache, ids))
    ensures Len(s) == |s.cache|
  {
    assert (map k | k in ids * s.keys :: s.cache[k]) == ItemCache.FetchExisting(s.cache, ids);
  }

  /** `extend`, `replace` and the corrected `pop` keep the key set describing the map. */
  lemma OperationsKeepConsistent(s: Interface, songs: map<string, Record>, list: seq<string>)
    requires Consistent(s)
    ensures Consistent(Extended(s, songs))
    ensures Consistent(Replaced(songs))
    ensures Consistent(Popped(s, list, Corrected).1)
  {
  }

  /** `pop` splits the map: the songs returned are exactly the listed ones the map held, the
      map keeps exactly the others, and together they make up the map as it was. */
  lemma PopSplits(s: Interface, list: seq<string>, rev: Revision)
    ensures var (taken, after) := Popped(s, list, rev);
            taken.Keys == s.cache.Keys * ItemCache.KeySet(list) &&
            after.cache.Keys == s.cache.Keys - ItemCache.KeySet(list) &&
            taken.Keys !! after.cache.Keys &&
            after.cache + taken == s.cache
  {
    var (taken, after) := Popped(s, list, rev);
    ItemCache.FetchExistingEntries(s.cache, ItemCache.KeySet(list));
    assert after.cache + taken == s.cache;
  }

  /** After a `pop` of a cached song, the key set as written names only that song, which the
      map no longer holds: `get` for it panics and `len` counts one song in an empty map. The
      corrected `pop` returns nothing for it and counts none. */
  lemma PopBreaksKeys(r: Record)
    ensures var s := Replaced(map[r.id := r]);
            var after := Popped(s, [r.id], AsWritten).1;
            !Consistent(after) && after.cache == map[] && Len(after) == 1 &&
            Get(after, {r.id}) == Panics(MissingKey)
    ensures var s := Replaced(map[r.id := r]);
            var after := Popped(s, [r.id], Corrected).1;
            Consistent(after) && Len(after) == 0 && Get(after, {r.id}) == Done(map[])
  {
    var s := Replaced(map[r.id := r]);
    assert (set k | k in [r.id]) == {r.id};
    assert ItemCache.FetchExisting(s.cache, {r.id}) == map[r.id := r];
  }

  /** `CacheInterface`. */
  class CacheInterface {
    var cache: map<string, Record>
    var keys: set<string>

    /** `Default`: empty. */
    constructor ()
      ensures cache == map[] && keys == {}
    {
      cache := map[];
      keys := {};
    }

    function State(): Interface
      reads this
    {
      Interface(cache, keys)
    }

    /** `extend`. */
    method Extend(songs: map<string, Record>)
      modifies this
      ensures State() == Extended(old(State()), songs)
    {
      keys := keys + songs.Keys;
      cache := cache + songs;
    }

    /** `pop`: `remove_entry` each listed key in turn, collecting what it removes. */
    method Pop(list: seq<string>, rev: Revision) returns (taken: map<string, Record>)
      modifies this
      ensures (taken, State()) == Popped(old(State()), list, rev)
    {
      taken := map[];
      var i := 0;
      while i < |list|
        invariant 0 <= i <= |list|
        invariant cache == ItemCache.Dropped(old(cache), list[..i])
        invariant taken == ItemCache.FetchExisting(old(cache), ItemCache.KeySet(list[..i]))
      {
        ItemCache.DroppedStep(old(cache), list, i);
        TakenStep(old(cache), list, i);
        if list[i] in cache {
          taken := taken[list[i] := cache[list[i]]];
          cache := cache - {list[i]};
        }
        i := i + 1;
      }
      assert list[..i] == list;
      if rev == AsWritten {
        keys := taken.Keys;
      } else {
        keys := cache.Keys;
      }
    }

    /** `replace`. */
    method Replace(songs: map<string, Record>)
      modifies this
      ensures State() == Replaced(songs)
    {
      keys := songs.Keys;
      cache := songs;
    }

    /** `get`, collected. */
    function GetSongs(ids: set<string>): Exec<map<string, Record>>
      reads this
    {
      Get(State(), ids)
    }

    /** `len`. */
    function Length(): nat
      reads this
    {
      Len(State())
    }

    /** `get_keys`. */
    function GetKeys(): set<string>
      reads this
    {
      keys
    }
  }

  /** One more `remove_entry` of the `pop` loop. */
  lemma TakenStep(items: map<string, Record>, list: seq<string>, i: nat)
    requires i < |list|
    ensures ItemCache.FetchExisting(items, ItemCache.KeySet(list[..i + 1])) ==
            if list[i] in ItemCache.Dropped(items, list[..i])
            then ItemCache.FetchExisting(items, ItemCache.KeySet(list[..i]))[list[i] := items[list[i]]]
            else ItemCache.FetchExisting(items, ItemCache.KeySet(list[..i]))
  {
    var a, b := list[..i], list[..i + 1];
    assert b == a + [list[i]];
    assert ItemCache.KeySet(b) == ItemCache.KeySet(a) + {list[i]};
  }
}
