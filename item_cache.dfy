/** `item_cache.rs`: the shared-entry maps of the buffered caches. A `RwArc` entry is modelled
    by its value; two maps holding the same `Arc` hold equal values here. */
module ItemCache {
  import opened Collections

  /** `to_rwmap`: collect `(key, value)` pairs into a map, each value in a fresh `RwLock`. */
  function ToRwMap<K, V>(pairs: seq<(K, V)>): map<K, V>
  {
    ToMap(pairs)
  }

  /** `to_rwmap` keeps every key, with the value of its last pair. */
  lemma ToRwMapLastWins<K, V>(pairs: seq<(K, V)>, k: K)
    ensures k in ToRwMap(pairs) <==> exists i :: 0 <= i < |pairs| && pairs[i].0 == k
    ensures forall i :: 0 <= i < |pairs| && pairs[i].0 == k && (forall j :: i < j < |pairs| ==> pairs[j].0 != k) ==>
              ToRwMap(pairs)[k] == pairs[i].1
  {
    ToMapLastWins(pairs);
    if k in ToRwMap(pairs) {
      assert k in set i | 0 <= i < |pairs| :: pairs[i].0;
    }
  }

  /** `fetch_existing`: the entries of `items` whose key was asked for. */
  function FetchExisting<K, V>(items: map<K, V>, ids: set<K>): (r: map<K, V>)
  {
    map k | k in items && k in ids :: items[k]
  }

  /** `fetch_existing` returns exactly the cached entries asked for, each the cached value;
      ids not cached are ignored. */
  lemma FetchExistingEntries<K, V>(items: map<K, V>, ids: set<K>)
    ensures FetchExisting(items, ids).Keys == items.Keys * ids
    ensures forall k :: k in FetchExisting(items, ids) ==> FetchExisting(items, ids)[k] == items[k]
    ensures FetchExisting(items, ids) == FetchExisting(items, ids * items.Keys)
  {
  }

  /** Fetching from a fetched map fetches what both asked for. */
  lemma FetchTwice<K, V>(items: map<K, V>, a: set<K>, b: set<K>)
    ensures FetchExisting(FetchExisting(items, a), b) == FetchExisting(items, a * b)
  {
  }

  /** The keys a list names. */
  function KeySet<K>(keys: seq<K>): set<K>
  {
    set k | k in keys
  }

  /** The map after `drop_from_cache(keys)`: the listed keys removed, any others kept. */
  function Dropped<K, V>(items: map<K, V>, keys: seq<K>): map<K, V>
  {
    items - (set k | k in keys)
  }

  /** One more `remove` of the `drop_from_cache` loop. */
  lemma DroppedStep<K, V>(items: map<K, V>, keys: seq<K>, i: nat)
    requires i < |keys|
    ensures Dropped(items, keys[..i + 1]) == Dropped(items, keys[..i]) - {keys[i]}
  {
    var a, b := keys[..i], keys[..i + 1];
    assert b == a + [keys[i]];
    assert (set k | k in b) == (set k | k in a) + {keys[i]};
  }

  /** Dropping keys, then fetching, fetches only keys not dropped, with their entries; an
      unlisted key keeps its entry and a dropped key is gone. */
  lemma FetchAfterDrop<K, V>(items: map<K, V>, keys: seq<K>, ids: set<K>)
    ensures FetchExisting(Dropped(items, keys), ids) == FetchExisting(items, ids - (set k | k in keys))
    ensures forall k :: k in items && k !in keys ==> k in Dropped(items, keys) && Dropped(items, keys)[k] == items[k]
    ensures forall k :: k in keys ==> k !in Dropped(items, keys)
  {
  }
}
