/** `CacheHandleItem`, `CacheHandle` and `CacheHandler`: the record of where a song's cached
    thumbnail and audio live under a cache folder. A generated id (`generate_id`, a UUID)
    is a parameter, as is the question whether a path exists on disk. */
module CacheHandlers {
  import opened Wrappers
  import opened Paths

  /** A cached item: the stored thumbnail and song paths and the primary colour. */
  datatype CacheHandleItem = CacheHandleItem(thumbnailPath: Option<Path>, songPath: Option<Path>, primaryColor: Option<string>)

  /** `Default`. */
  const EmptyItem := CacheHandleItem(None, None, None)

  const Jpg: Extension := "jpg"
  const Mp3: Extension := "mp3"

  /** `get_thumbnail`: the stored path under the folder, as a `.jpg`. */
  function GetThumbnail(item: CacheHandleItem, source: Path): Option<Path>
  {
    if item.thumbnailPath.None? then None else Some(SetExtension(Push(source, item.thumbnailPath.value), Jpg))
  }

  /** `get_song`: the stored path under the folder, as an `.mp3`. */
  function GetSong(item: CacheHandleItem, source: Path): Option<Path>
  {
    if item.songPath.None? then None else Some(SetExtension(Push(source, item.songPath.value), Mp3))
  }

  /** `get_thumbnail` and `get_song` are there exactly when the path is stored; a generated
      id resolves to `<folder>/<id>.jpg` (`.mp3`). */
  lemma ResolvedPaths(item: CacheHandleItem, source: Path, id: Name)
    requires '.' !in id
    ensures GetThumbnail(item, source).Some? <==> item.thumbnailPath.Some?
    ensures GetSong(item, source).Some? <==> item.songPath.Some?
    ensures item.thumbnailPath == Some(FromName(id)) ==>
              GetThumbnail(item, source) == Some(Path(source.absolute, source.parts + [id + ".jpg"]))
    ensures item.songPath == Some(FromName(id)) ==>
              GetSong(item, source) == Some(Path(source.absolute, source.parts + [id + ".mp3"]))
  {
    PushedNameWithExtension(source, id, Jpg);
    PushedNameWithExtension(source, id, Mp3);
    assert id + "." + Jpg == id + ".jpg";
    assert id + "." + Mp3 == id + ".mp3";
  }

  /** `ensure_thumbnail`: a thumbnail path is stored, `newId` if there was none; the item
      afterwards and the path it returns. */
  function EnsuredThumbnail(item: CacheHandleItem, newId: Name): (r: (CacheHandleItem, Path))
    ensures r.0.thumbnailPath == Some(r.1)
    ensures r.0.songPath == item.songPath && r.0.primaryColor == item.primaryColor
    ensures item.thumbnailPath.Some? ==> r == (item, item.thumbnailPath.value)
    ensures item.thumbnailPath.None? ==> r.1 == FromName(newId)
  {
    var stored := if item.thumbnailPath.None? then item.(thumbnailPath := Some(FromName(newId))) else item;
    (stored, stored.thumbnailPath.value)
  }

  /** `ensure_song`: a song path is stored, `newId` if there was none. */
  function EnsuredSong(item: CacheHandleItem, newId: Name): (r: (CacheHandleItem, Path))
    ensures r.0.songPath == Some(r.1)
    ensures r.0.thumbnailPath == item.thumbnailPath && r.0.primaryColor == item.primaryColor
    ensures item.songPath.Some? ==> r == (item, item.songPath.value)
    ensures item.songPath.None? ==> r.1 == FromName(newId)
  {
    var stored := if item.songPath.None? then item.(songPath := Some(FromName(newId))) else item;
    (stored, stored.songPath.value)
  }

  /** Ensuring twice is ensuring once, whatever id the second call would generate; after it
      the path resolves. */
  lemma EnsureIdempotent(item: CacheHandleItem, source: Path, newId: Name, newId2: Name)
    ensures EnsuredThumbnail(EnsuredThumbnail(item, newId).0, newId2) == EnsuredThumbnail(item, newId)
    ensures EnsuredSong(EnsuredSong(item, newId).0, newId2) == EnsuredSong(item, newId)
    ensures GetThumbnail(EnsuredThumbnail(item, newId).0, source).Some?
    ensures GetSong(EnsuredSong(item, newId).0, source).Some?
  {
  }

  /** `get_thumbnail` kept only when the file exists. */
  function ExistingThumbnail(item: CacheHandleItem, source: Path, onDisk: Path -> bool): Option<Path>
  {
    var p := GetThumbnail(item, source);
    if p.Some? && onDisk(p.value) then p else None
  }

  /** `get_song` kept only when the file exists. */
  function ExistingSong(item: CacheHandleItem, source: Path, onDisk: Path -> bool): Option<Path>
  {
    var p := GetSong(item, source);
    if p.Some? && onDisk(p.value) then p else None
  }

  /** `Option::and`. */
  function And<T, U>(a: Option<T>, b: Option<U>): Option<U>
  {
    if a.Some? then b else None
  }

  /** The filter of `validate_paths`: an item with some path stored whose stored paths do
      not match the files that exist. */
  predicate NeedsFix(item: CacheHandleItem, source: Path, onDisk: Path -> bool)
  {
    !(item.thumbnailPath.None? && item.songPath.None?) &&
    !(item.thumbnailPath.Some? == ExistingThumbnail(item, source, onDisk).Some? &&
      item.songPath.Some? == ExistingSong(item, source, onDisk).Some?)
  }

  /** The repaired item of `validate_paths`. */
  function Fixed(item: CacheHandleItem, source: Path, onDisk: Path -> bool): CacheHandleItem
  {
    CacheHandleItem(And(item.thumbnailPath, ExistingThumbnail(item, source, onDisk)),
                    And(item.songPath, ExistingSong(item, source, onDisk)),
                    item.primaryColor)
  }

  /** `validate_paths`: nothing when every item is as it should be, otherwise the map with
      each item that needs it repaired. */
  function ValidatePaths(source: Path, items: map<string, CacheHandleItem>, onDisk: Path -> bool): Option<map<string, CacheHandleItem>>
  {
    var unfinished := map k | k in items && NeedsFix(items[k], source, onDisk) :: Fixed(items[k], source, onDisk);
    if unfinished == map[] then None else Some(items + unfinished)
  }

  /** `validate_paths` returns nothing exactly when no item needs repair, which an item with
      no path stored never does. */
  lemma ValidateNothingToFix(source: Path, items: map<string, CacheHandleItem>, onDisk: Path -> bool)
    ensures ValidatePaths(source, items, onDisk).None? <==> forall k :: k in items ==> !NeedsFix(items[k], source, onDisk)
    ensures forall item: CacheHandleItem :: item.thumbnailPath.None? && item.songPath.None? ==> !NeedsFix(item, source, onDisk)
  {
    var unfinished := map k | k in items && NeedsFix(items[k], source, onDisk) :: Fixed(items[k], source, onDisk);
    if exists k :: k in items && NeedsFix(items[k], source, onDisk) {
      var k :| k in items && NeedsFix(items[k], source, onDisk);
      assert k in unfinished;
    }
  }

  /** A repaired map keeps every key; an item needing repair loses exactly the paths whose
      file is missing, holds the resolved path of each file that exists and keeps its
      colour; every other item is unchanged. */
  lemma ValidateRepairs(source: Path, items: map<string, CacheHandleItem>, onDisk: Path -> bool, k: string)
    requires ValidatePaths(source, items, onDisk).Some? && k in items
    ensures var m := ValidatePaths(source, items, onDisk).value;
            var item := items[k];
            m.Keys == items.Keys &&
            (!NeedsFix(item, source, onDisk) ==> m[k] == item) &&
            (NeedsFix(item, source, onDisk) ==>
              m[k].primaryColor == item.primaryColor &&
              (m[k].thumbnailPath.Some? <==> item.thumbnailPath.Some? && onDisk(GetThumbnail(item, source).value)) &&
              (m[k].thumbnailPath.Some? ==> m[k].thumbnailPath == GetThumbnail(item, source)) &&
              (m[k].songPath.Some? <==> item.songPath.Some? && onDisk(GetSong(item, source).value)) &&
              (m[k].songPath.Some? ==> m[k].songPath == GetSong(item, source)))
  {
  }

  /** With a rooted cache folder, a repaired map needs no further repair: each path kept
      resolves to the file it names, which exists. */
  lemma RepairIsFinal(source: Path, items: map<string, CacheHandleItem>, onDisk: Path -> bool)
    requires source.absolute
    requires ValidatePaths(source, items, onDisk).Some?
    ensures ValidatePaths(source, ValidatePaths(source, items, onDisk).value, onDisk).None?
  {
    var m := ValidatePaths(source, items, onDisk).value;
    forall k | k in m ensures !NeedsFix(m[k], source, onDisk) {
      ValidateRepairs(source, items, onDisk, k);
      if NeedsFix(items[k], source, onDisk) {
        var item := items[k];
        if m[k].thumbnailPath.Some? {
          ResolvedPathIsFixed(source, Push(source, item.thumbnailPath.value), Jpg);
        }
        if m[k].songPath.Some? {
          ResolvedPathIsFixed(source, Push(source, item.songPath.value), Mp3);
        }
      }
    }
    ValidateNothingToFix(source, m, onDisk);
  }

  /** `CacheHandler`: the cache folder and the map of items. */
  class CacheHandler {
    const source: Path
    var items: map<string, CacheHandleItem>

    /** `new`, without creating the folder. */
    constructor (folder: Path)
      ensures source == folder && items == map[]
    {
      source := folder;
      items := map[];
    }

    /** `get`: the handle on the item under `key`, inserting an empty item if there is none. */
    method Get(key: string) returns (h: CacheHandle)
      modifies this
      ensures items == if key in old(items) then old(items) else old(items)[key := EmptyItem]
      ensures fresh(h) && h.handler == this && h.key == key
    {
      if key !in items {
        items := items[key := EmptyItem];
      }
      h := new CacheHandle(this, key);
    }

    /** `validate_paths`, on the current map. */
    function ValidatedPaths(onDisk: Path -> bool): Option<map<string, CacheHandleItem>>
      reads this
    {
      ValidatePaths(source, items, onDisk)
    }
  }

  /** `CacheHandle`: the folder and the item it borrows from the handler's map. */
  class CacheHandle {
    const handler: CacheHandler
    const key: string

    constructor (handler: CacheHandler, key: string)
      ensures this.handler == handler && this.key == key
    {
      this.handler := handler;
      this.key := key;
    }

    /** `ensure_thumbnail`: ensure the item's thumbnail path and return it resolved under
        the folder; the `unwrap` never fails. The borrowed item is always in the map. */
    method EnsureThumbnail(newId: Name) returns (p: Path)
      requires key in handler.items
      modifies handler
      ensures handler.items == old(handler.items)[key := EnsuredThumbnail(old(handler.items)[key], newId).0]
      ensures GetThumbnail(handler.items[key], handler.source) == Some(p)
    {
      var item := handler.items[key];
      var (stored, _) := EnsuredThumbnail(item, newId);
      handler.items := handler.items[key := stored];
      p := SetExtension(Push(handler.source, stored.thumbnailPath.value), Jpg);
    }

    /** `ensure_song`: `todo!()`. */
    method EnsureSong() returns (r: Exec<Path>)
      ensures r == Panics(Unimplemented)
    {
      r := Panics(Unimplemented);
    }
  }
}
