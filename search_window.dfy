/** The search pane: what a search returned, which of its songs are selected, and the
    messages that edit the query and the selection. */
module SearchWindow {
  import opened Wrappers
  import UserInput

  /** `YTIEKey`: which extractor produced a search result. */
  datatype YTIEKey = Youtube | YoutubeTab | YoutubeMusicSearchURL

  /** `YTSearchEntry`, as the backend reports it. */
  datatype YTSearchEntry = YTSearchEntry(ieKey: YTIEKey, id: string, title: Option<string>, url: string)

  /** `SearchEntry`: one result, a song or a playlist tab. */
  datatype SearchEntry =
    | SongEntry(id: string, title: Option<string>, url: string)
    | TabEntry(id: string, title: Option<string>, url: string)

  datatype InvalidKind = InvalidKind

  /** `SearchEntry::new`: a video becomes a song, a tab a tab, with id, title and url kept;
      a search URL is refused. */
  function NewEntry(e: YTSearchEntry): (r: Result<SearchEntry, InvalidKind>)
    ensures r.Ok? <==> e.ieKey != YoutubeMusicSearchURL
    ensures r.Ok? ==> r.value.id == e.id && r.value.title == e.title && r.value.url == e.url &&
                      (r.value.SongEntry? <==> e.ieKey == Youtube)
  {
    match e.ieKey
    case Youtube => Ok(SongEntry(e.id, e.title, e.url))
    case YoutubeTab => Ok(TabEntry(e.id, e.title, e.url))
    case YoutubeMusicSearchURL => Err(InvalidKind)
  }

  /** `SearchType`: one song, a tab's song keys with a selection over them, or a list of
      results. */
  datatype SearchType =
    | Song(key: string)
    | Tab(keys: seq<string>, mode: UserInput.SelectionMode)
    | Search(entries: seq<SearchEntry>)

  /** `new_tab`. */
  function NewTab(songs: seq<string>): (t: SearchType)
    ensures t.Tab? && t.keys == songs && t.mode == UserInput.None
  {
    Tab(songs, UserInput.None)
  }

  /** `filter_map(|idx| s.get(idx))`: the keys at the indices, in index order, indices past
      the end skipped. */
  function KeysAt(s: seq<string>, idxs: seq<nat>): seq<string>
  {
    if |idxs| == 0 then []
    else (if idxs[0] < |s| then [s[idxs[0]]] else []) + KeysAt(s, idxs[1..])
  }

  /** `selected_keys`. */
  function SelectedKeys(t: SearchType): Option<seq<string>>
  {
    match t
    case Song(s) => Some([s])
    case Tab(s, mode) =>
      (match mode
        case None => Wrappers.None
        case Single(idx) => if idx < |s| then Some([s[idx]]) else Wrappers.None
        case Multiple(v) => Some(KeysAt(s, v))
        case Range(_, lo, hi) => Some(KeysAt(s, UserInput.Inclusive(lo, hi))))
    case Search(_) => Wrappers.None
  }

  /** The song ids among the results, in order; tabs are skipped. */
  function SongIds(es: seq<SearchEntry>): seq<string>
  {
    if |es| == 0 then []
    else (if es[0].SongEntry? then [es[0].id] else []) + SongIds(es[1..])
  }

  /** `used_keys`. */
  function UsedKeys(t: SearchType): seq<string>
  {
    match t
    case Song(s) => [s]
    case Tab(v, _) => v
    case Search(es) => SongIds(es)
  }

  /** A key comes out of `KeysAt` exactly when one of the indices in range points at it. */
  lemma {:induction false} KeysAtMembers(s: seq<string>, idxs: seq<nat>, k: string)
    ensures k in KeysAt(s, idxs) <==> exists j :: 0 <= j < |idxs| && idxs[j] < |s| && s[idxs[j]] == k
  {
    if |idxs| > 0 {
      KeysAtMembers(s, idxs[1..], k);
      if exists j :: 0 <= j < |idxs| && idxs[j] < |s| && s[idxs[j]] == k {
        var j :| 0 <= j < |idxs| && idxs[j] < |s| && s[idxs[j]] == k;
        if j > 0 { assert idxs[1..][j - 1] == idxs[j]; }
      }
      if exists j :: 0 <= j < |idxs[1..]| && idxs[1..][j] < |s| && s[idxs[1..][j]] == k {
        var j :| 0 <= j < |idxs[1..]| && idxs[1..][j] < |s| && s[idxs[1..][j]] == k;
        assert idxs[j + 1] == idxs[1..][j];
      }
    }
  }

  /** With every index in range, nothing is dropped: one key per index, in index order. */
  lemma {:induction false} KeysAtInRange(s: seq<string>, idxs: seq<nat>)
    requires forall j :: 0 <= j < |idxs| ==> idxs[j] < |s|
    ensures |KeysAt(s, idxs)| == |idxs|
    ensures forall j :: 0 <= j < |idxs| ==> KeysAt(s, idxs)[j] == s[idxs[j]]
  {
    if |idxs| > 0 {
      KeysAtInRange(s, idxs[1..]);
    }
  }

  /** A range selection reads the keys of the part of the range that lies in the tab. */
  lemma {:induction false} RangeSelectsSlice(s: seq<string>, lo: nat, hi: nat)
    ensures KeysAt(s, UserInput.Inclusive(lo, hi)) ==
              if lo <= hi && lo < |s| then s[lo..if hi < |s| then hi + 1 else |s|] else []
    decreases hi - lo
  {
    var r := UserInput.Inclusive(lo, hi);
    if lo <= hi {
      assert r[0] == lo;
      if lo < hi {
        assert r[1..] == UserInput.Inclusive(lo + 1, hi);
        RangeSelectsSlice(s, lo + 1, hi);
      } else {
        assert r[1..] == [];
      }
    }
  }

  /** A tab's selection reads exactly the keys of the selected rows that exist; only a
      missing single row, or no selection, gives nothing. */
  lemma SelectedKeysOfTab(s: seq<string>, mode: UserInput.SelectionMode, k: string)
    ensures SelectedKeys(Tab(s, mode)).None? <==> mode.None? || (mode.Single? && mode.idx >= |s|)
    ensures SelectedKeys(Tab(s, mode)).Some? ==>
              (k in SelectedKeys(Tab(s, mode)).value <==>
                 exists i :: 0 <= i < |s| && UserInput.Contains(mode, i) && s[i] == k)
  {
    match mode
    case None =>
    case Single(idx) =>
    case Multiple(v) =>
      KeysAtMembers(s, v, k);
      if exists i :: 0 <= i < |s| && UserInput.Contains(mode, i) && s[i] == k {
        var i :| 0 <= i < |s| && UserInput.Contains(mode, i) && s[i] == k;
        var j :| 0 <= j < |v| && v[j] == i;
      }
    case Range(_, lo, hi) =>
      var r := UserInput.Inclusive(lo, hi);
      KeysAtMembers(s, r, k);
      if exists i :: 0 <= i < |s| && UserInput.Contains(mode, i) && s[i] == k {
        var i :| 0 <= i < |s| && UserInput.Contains(mode, i) && s[i] == k;
        assert r[i - lo] == i;
      }
  }

  /** The used keys of a result list follow the list: those of a concatenation are those
      of its parts, one key per song entry and none per tab. */
  lemma {:induction false} SongIdsAppend(a: seq<SearchEntry>, b: seq<SearchEntry>)
    ensures SongIds(a + b) == SongIds(a) + SongIds(b)
  {
    if |a| == 0 {
      assert a + b == b;
    } else {
      var head := if a[0].SongEntry? then [a[0].id] else [];
      assert (a + b)[0] == a[0] && (a + b)[1..] == a[1..] + b;
      SongIdsAppend(a[1..], b);
      assert SongIds(a + b) == head + SongIds(a[1..] + b);
    }
  }

  /** An id is used by a result list exactly when some song entry has it. */
  lemma {:induction false} SongIdsMembers(es: seq<SearchEntry>, k: string)
    ensures k in SongIds(es) <==> exists i :: 0 <= i < |es| && es[i].SongEntry? && es[i].id == k
  {
    if |es| > 0 {
      SongIdsMembers(es[1..], k);
      if exists i :: 0 <= i < |es| && es[i].SongEntry? && es[i].id == k {
        var i :| 0 <= i < |es| && es[i].SongEntry? && es[i].id == k;
        if i > 0 { assert es[1..][i - 1] == es[i]; }
      }
    }
  }

  /** `SWMessage`. */
  datatype SWMessage =
    | SearchQueryChanged(text: string)
    | SearchQuerySubmitted
    | SimpleSelectSong(index: nat)
    | SelectSong(index: nat)

  /** The query and the results, as one value. */
  datatype WindowState = WindowState(query: string, searchType: SearchType)

  /** `SearchWindow::update`: a plain selection replaces a tab's empty or single selection
      only, a modified one goes through `update_selection`, a query edit replaces the
      query; nothing else changes. */
  function Updated(w: WindowState, msg: SWMessage, mods: UserInput.Modifiers): Exec<WindowState>
  {
    match msg
    case SimpleSelectSong(idx) =>
      (match w.searchType
        case Tab(keys, mode) =>
          if mode.None? || mode.Single? then Done(w.(searchType := Tab(keys, UserInput.Single(idx))))
          else Done(w)
        case _ => Done(w))
    case SelectSong(idx) =>
      (match w.searchType
        case Tab(keys, mode) =>
          (match UserInput.Updated(mode, idx, mods)
            case Panics(p) => Panics(p)
            case Done(m) => Done(w.(searchType := Tab(keys, m))))
        case _ => Done(w))
    case SearchQueryChanged(s) => Done(w.(query := s))
    case SearchQuerySubmitted => Done(w)
  }

  /** No message changes which songs the pane shows, and only a query edit changes the
      query. */
  lemma UpdateKeepsKeys(w: WindowState, msg: SWMessage, mods: UserInput.Modifiers)
    ensures Updated(w, msg, mods).Done? ==>
              UsedKeys(Updated(w, msg, mods).value.searchType) == UsedKeys(w.searchType) &&
              (Updated(w, msg, mods).value.searchType.Tab? <==> w.searchType.Tab?) &&
              (!msg.SearchQueryChanged? ==> Updated(w, msg, mods).value.query == w.query) &&
              (msg.SearchQueryChanged? ==> Updated(w, msg, mods).value == w.(query := msg.text))
  {
  }

  /** A plain click on a row of a tab with no or one row selected selects that row's key;
      with several rows selected it changes nothing. */
  lemma SimpleSelectPicksRow(keys: seq<string>, mode: UserInput.SelectionMode, idx: nat, q: string, mods: UserInput.Modifiers)
    ensures var r := Updated(WindowState(q, Tab(keys, mode)), SimpleSelectSong(idx), mods);
            r.Done? &&
            (mode.None? || mode.Single? ==>
               SelectedKeys(r.value.searchType) == if idx < |keys| then Some([keys[idx]]) else Wrappers.None) &&
            (mode.Multiple? || mode.Range? ==> r.value == WindowState(q, Tab(keys, mode)))
  {
  }

  /** Selecting outside a tab changes nothing. */
  lemma SelectOutsideTabIgnored(w: WindowState, idx: nat, mods: UserInput.Modifiers)
    requires !w.searchType.Tab?
    ensures Updated(w, SimpleSelectSong(idx), mods) == Done(w)
    ensures Updated(w, SelectSong(idx), mods) == Done(w)
  {
  }

  /** The search pane. The song cache it reads titles from is not part of this model. */
  class Window {
    var query: string
    var searchType: SearchType

    function Snapshot(): WindowState
      reads this
    {
      WindowState(query, searchType)
    }

    /** `SearchWindow::default()`: no query, an empty tab with nothing selected. */
    constructor ()
      ensures Snapshot() == WindowState("", Tab([], UserInput.None))
    {
      query := "";
      searchType := Tab([], UserInput.None);
    }

    /** `update`, writing the query or the tab's selection in place; a panic in
        `update_selection` leaves the pane as it was. */
    method Update(msg: SWMessage, mods: UserInput.Modifiers) returns (r: Exec<()>)
      modifies this
      ensures r.Done? <==> Updated(old(Snapshot()), msg, mods).Done?
      ensures r.Done? ==> Snapshot() == Updated(old(Snapshot()), msg, mods).value
      ensures r.Panics? ==> Snapshot() == old(Snapshot())
    {
      match msg
      case SimpleSelectSong(idx) =>
        if searchType.Tab? && (searchType.mode.None? || searchType.mode.Single?) {
          searchType := Tab(searchType.keys, UserInput.Single(idx));
        }
        r := Done(());
      case SelectSong(idx) =>
        if searchType.Tab? {
          var m := UserInput.UpdateSelection(searchType.mode, idx, mods);
          if m.Panics? {
            return Panics(m.reason);
          }
          searchType := Tab(searchType.keys, m.value);
        }
        r := Done(());
      case SearchQueryChanged(s) =>
        query := s;
        r := Done(());
      case SearchQuerySubmitted =>
        r := Done(());
    }
  }
}
