# ytm-rs core, modelled in Dafny

ytm-rs is a desktop YouTube Music client written in Rust. This project models the parts of
the client that hold its logic, leaving out the user interface:

- **Song operations.** A playlist is a tree, `RecursiveSongOp`. Its leaves are songs. Its
  groups are of seven kinds: play once, loop N times, stretch, loop for ever, shuffle, pick
  one at random, and pick at random for ever (`SongOps`).
  - `is_valid` and `loop_type` classify a tree.
  - `into_iter` expands a tree into the song keys it plays (`SongOperations`).
- **Playback tracker.** A tree of cursors mirrors the program. It has `move_next`,
  `move_back`, `to_start`, `to_end`, `get_current`, `set_current` and a constructor from a
  program. The repository has two versions: the older tracker in `song_operations.rs` and
  the newer one in `song_op_tracker.rs`.
  - `OpTracker` holds the step functions.
  - `OpTrackerLive.LiveTracker` is the mutable tracker built on them.
  - `OpTrackerFrom`, `OpTrackerProofs`, `OpTrackerPaths` and `OpTrackerSteps` hold the
    properties.
- **Op constructor.** The editor behind the playlist builder. It has a seven-entry label
  table, the message-driven `update`, `push`, `insert`, `push_to_id`/`item_has_id`, and
  `build`, which turns the editor into a program (`OpConstructor`, `OpConstructorLive`,
  `OpConstructorProofs`, `OpConstructorPush`). `Decimal` models the `u32` parse behind
  `verify_n`.
- **List selection.** `SelectionMode::update_selection` and `contains` handle plain,
  Shift- and Ctrl-clicks (`UserInput`). They are used by the search window's
  `selected_keys`, `used_keys`, `SearchEntry::new` and `update` (`SearchWindow`).
- **NDJSON caches.**
  - The song file is a list of lines, each a JSON item with an id (`NdjsonLines`).
  - The synchronous line reader, and the song cache's `filter_file_songs`/`extend`, merge
    new items into the file (`LineReader`).
  - The newer asynchronous reader reads strictly and merges differently
    (`AsyncLineReader`).
  - `CacheReader` holds `read_filter`/`read_from_ids`.
  - The in-memory maps: `to_rwmap` and `fetch_existing` (`ItemCache`); `NDJsonCache` and
    `FolderCache` (`BufferedCaches`).
  - The song cache, whose `Arc`s are modelled as values with reference counts
    (`SongCaches`).
  - The `CacheInterface` key map (`CacheInterfaces`).
- **Cache handles.**
  - `CacheHandleItem` records where a song's thumbnail and audio live under the cache
    folder. Its `get_*`/`ensure_*` build and lazily assign those paths.
  - `CacheHandler` holds the items: `get`, and `validate_paths`, which repairs items
    against the files that exist (`CacheHandlers`).
  - Paths are lists of components (`Paths`).

Random choices are an explicit `Dice` value (`Randomness`). Every outcome the generator could
produce is some `Dice`. Panics are a result value `Exec.Panics(reason)` (`Wrappers`) that
names the panicking operation: index out of bounds, division by zero, `usize` underflow, an
empty `gen_range`, an `unwrap` of `None`, or `todo!()`.

Several places keep two versions of a behaviour:
- Where the repository itself has two versions, a parameter selects between them: the
  tracker's `Variant` (`Older`, `Newer`) and the async reader's `Revision`.
- Where the code as written breaks a property it evidently intends, the corrected behaviour
  is modelled beside it: `Repaired` for the tracker, and `Corrected` for `Revision`. See
  "Findings".

The two copies of `CacheHandleItem` (`cache_handlers.rs` and `cache_handlers/cache_handle.rs`)
behave the same and are modelled once. So are `filter_file_songs` and the synchronous reader's
`filter_file_items`, and the two copies of `is_valid`/`loop_type` (`recursive_song_op.rs` and
`song_operations.rs:74-120`).

## Model

| member | source | states |
|---|---|---|
| SongOps.IsValid | src/song_operations/recursive_song_op.rs:33-44 | defines `is_valid`: a song is valid, a group when all of its children are |
| SongOps.LoopType | src/song_operations/recursive_song_op.rs:46-72 | defines `loop_type`: the endless kinds are `Infinite`, `SingleRandom` may be, the others take the first answer of their children that is not `Never` |
| SongOps.EveryOpIsValid | src/song_operations/recursive_song_op.rs:33-44 | `is_valid` holds for every program: no arm returns false |
| SongOps.FirstNotNever | src/song_operations/recursive_song_op.rs:54-63 | the `find_map` result is `Never` iff every child type is `Never`; otherwise it is the type of the first child that is not `Never` |
| SongOps.LoopTypeCases | src/song_operations/recursive_song_op.rs:46-72 | `InfiniteLoop`/`InfiniteRandom` are `Always` and `SinglePlay` is `Never`, whatever they hold. The four sequential kinds take the first non-`Never` child type, or `Never` when there is none. `SingleRandom` is `Maybe` iff some child is not `Never`, and is never `Always` |
| SongOps.FirstChildDecides | src/song_operations/recursive_song_op.rs:54-63 | `PlayOnce[SingleRandom[InfiniteLoop[]], InfiniteLoop[]]` is `Maybe`: the first child decides, not the maximum |
| SongOps.NeverIffNoInfiniteGroup | src/song_operations/recursive_song_op.rs:46-72 | a program is `Never` exactly when it contains no `InfiniteLoop`/`InfiniteRandom` |
| SongOps.MaybeNeedsSingleRandom | src/song_operations/recursive_song_op.rs:65-70 | `Maybe` only arises from a `SingleRandom` somewhere in the program |
| SongOperations.Play | src/song_operations.rs:38-70 | defines `into_iter` of a program: a song plays itself, a group the chain of its children's plays along its schedule, then its tail (run out, plays on for ever, or crashes in `unwrap`) |
| SongOperations.Chain | src/song_operations.rs:42-70 | a flattened stream runs to its end only if its tail does |
| SongOperations.LoopOrder | src/song_operations.rs:46-49 | `cycle().take(len*n)` visits `len*n` children |
| SongOperations.LoopOrderAt | src/song_operations.rs:46-49 | round `k` of a loop is child `k % len` |
| SongOperations.StretchOrder | src/song_operations.rs:50-53 | a stretch visits `len*n` children |
| SongOperations.StretchOrderAt | src/song_operations.rs:50-53 | round `k` of a stretch is child `k / n` |
| SongOperations.Schedule | src/song_operations.rs:42-70 | every child index a group visits is in range |
| SongOperationsProofs.PlayOnceConcatenates | src/song_operations.rs:45 | `PlayOnce` plays its children one after the other; when they all end, it plays the concatenation of their songs in child order |
| SongOperationsProofs.LoopNTimesRounds | src/song_operations.rs:46-49 | `LoopNTimes(ops, n)` has `|ops|*n` rounds; round `k` plays child `k % |ops|` |
| SongOperationsProofs.StretchRounds | src/song_operations.rs:50-53 | `Stretch(ops, n)` has `|ops|*n` rounds; round `k` plays child `k / n`, so each child plays `n` times in a row |
| SongOperationsProofs.EmptyLoopsPlayNothing | src/song_operations.rs:46-53 | with `n = 0` or no children, `LoopNTimes` and `Stretch` play nothing and end |
| SongOperationsProofs.LoopNTimesRepeatsPlayOnce | src/song_operations.rs:46-49 | under the same random answers each round, `LoopNTimes(ops, n)` plays the `PlayOnce(ops)` sequence `n` times |
| SongOperationsProofs.RandomPlayPlaysEachChildOnce | src/song_operations.rs:55-62 | `RandomPlay` visits every child exactly once, and every order of the children can occur |
| SongOperationsProofs.RandomPlayIsAReordering | src/song_operations.rs:55-62 | `RandomPlay` plays exactly what `PlayOnce` plays over its children rearranged along the shuffled schedule, and that rearrangement holds each child exactly once |
| SongOperationsProofs.SingleRandomPlaysOneChild | src/song_operations.rs:63-66 | `SingleRandom` plays exactly one child's sequence; with no children it panics (`Crashed`) |
| SongOperationsProofs.SingleRandomCanPickAny | src/song_operations.rs:63-66 | any child can be the one chosen |
| SongOperationsProofs.NeverMeansFinite | src/song_operations.rs:42-70 | a program whose `loop_type` is `Never` never yields an endless stream |
| SongOperationsProofs.EndlessGroupsNeverRunOut | src/song_operations.rs:54 | a non-empty `InfiniteLoop`/`InfiniteRandom` never runs out |
| SongOperationsProofs.EmptyInfiniteLoopEnds | src/song_operations.rs:54 | an empty `InfiniteLoop` is classed `Always` but plays nothing and ends |
| Randomness.PickBelow | src/song_operations/song_op_tracker.rs:103-111 | `gen_range(0..len)` answers an index below `len` |
| Randomness.EveryIndexCanBePicked | src/song_operations/song_op_tracker.rs:103-111 | every index below `len` is a possible answer |
| Randomness.Shuffle | src/song_operations/song_op_tracker.rs:431-439 | a shuffle is a rearrangement of the list, and any rearrangement can be the outcome |
| Randomness.SampleAll | src/song_operations.rs:55-62 | `sample(len, len)` is a permutation of `0..len` (also the shuffled order of a new tracker, `song_operations/song_op_tracker.rs:94-102`) |
| Decimal.ParseU32 | src/song_operations/song_op_constructor.rs:151-155 | `parse::<u32>` succeeds exactly on an optional `+` followed by at least one digit and nothing else, with value at most `u32::MAX`; it returns that value |
| Decimal.ParsePrinted | src/song_operations/song_op_constructor.rs:151-155 | every `u32` printed in decimal, with or without `+`, parses back to itself |
| Decimal.ParseRejectsOverflow | src/song_operations/song_op_constructor.rs:151-155 | a number above `u32::MAX` does not parse |
| Decimal.ParseRejects | src/song_operations/song_op_constructor.rs:151-155 | a non-digit, a lone `+` or an empty text does not parse |
| OpTracker.ToStart | src/song_operations/song_op_tracker.rs:408-455 | defines `to_start`: the group's own cursor goes back to 0. `InfiniteLoop` and both random kinds also restart the child they re-enter, and the random kinds draw a new order. The children of `PlayOnce`, `LoopNTimes` and `Stretch` keep their cursors, as the source leaves them (the older tracker at `song_operations.rs:414-455` agrees) |
| OpTracker.ToEnd | src/song_operations/song_op_tracker.rs:457-492 | defines `to_end`: the cursor at the end, one past the last position as written for `PlayOnce`, `LoopNTimes` and `InfiniteLoop`; the older arms at `song_operations.rs:457-492` are the `Older` variant |
| OpTracker.MoveNext | src/song_operations/song_op_tracker.rs:314-406 | defines `move_next` for every kind: step the current child, and when it ended enter the next child from its start or report `Ended` (the older tracker at `song_operations.rs:324-412`) |
| OpTracker.MoveBack | src/song_operations/song_op_tracker.rs:115-212 | defines `move_back` for every kind: step the current child back, and when it rewound enter the previous child from its end or report `Rewound` (the older tracker at `song_operations.rs:178-269`) |
| OpTracker.GetCurrent | src/song_operations/song_op_tracker.rs:214-265 | defines `get_current`: the path of child indices that the cursors designate, with the older tracker's trailing `0` for `Older` |
| OpTracker.SetCurrent | src/song_operations/song_op_tracker.rs:267-312 | defines `set_current`: the first index becomes the cursor and the rest goes to that child |
| OpTracker.From | src/song_operations/song_op_tracker.rs:71-112 | defines `SongOpTracker::from`: a tracker at the start of the program, with fresh random choices |
| OpTracker.FromSongOp | src/song_operations/song_op_tracker.rs:499-503 | defines `from_song_op`: `from`, then `set_current` with the given path |
| OpTrackerFrom.FromSongOpRoundTrip | src/song_operations/song_op_tracker.rs:499-503 | repaired, `from_song_op` on a playable program and a path through it never panics, gives a well-formed tracker, and `get_current` reads that path back |
| OpTracker.Advance | src/song_operations/song_op_tracker.rs:319-326 | a group that enters a child after another ended reports `Current`; where the step lands is stated by `OpTrackerSteps.PlayOnceAdvancesToNextChild`, `OpTrackerSteps.InfiniteLoopAdvances` and `OpTrackerSteps.InfiniteLoopWrapsToFirstChild` |
| OpTracker.Retreat | src/song_operations/song_op_tracker.rs:119-127 | a group that enters a child after another rewound reports `Current`; where the step lands is stated by `OpTrackerSteps.PlayOnceRetreatsToPreviousChild` and `OpTrackerSteps.InfiniteLoopRetreats` |
| OpTracker.FromAll | src/song_operations/song_op_tracker.rs:495-497 | `map` builds one tracker per child program |
| OpTracker.Collect | src/song_operations/song_op_tracker.rs:495-497 | collecting the children succeeds iff every child was built, and keeps them in order |
| OpTrackerFrom.FromPanicsIffEmptyChoice | src/song_operations/song_op_tracker.rs:71-112 | building a tracker panics exactly when a `SingleRandom`/`InfiniteRandom` somewhere has no children to choose from |
| OpTrackerFrom.FromIsFresh | src/song_operations/song_op_tracker.rs:71-112 | a built tracker mirrors the program. Every sequential cursor is 0. `RandomPlay`'s indices are a permutation of `0..len`. The random kinds' cursor is below `len` |
| OpTrackerFrom.FromPlayableIsWellFormed | src/song_operations/song_op_tracker.rs:71-112 | a program whose groups are non-empty and whose counts are positive gives a tracker whose every cursor is in range |
| OpTrackerFrom.ZeroStretchDividesByZero | src/song_operations/song_op_tracker.rs:348-363 | `Stretch` with `n = 0` builds, and then `move_next` divides by zero |
| OpTrackerFrom.ZeroLoopsUnderflow | src/song_operations/song_op_tracker.rs:329-347 | `LoopNTimes` with `n = 0`: `move_next` underflows `len*total_loops - 1` |
| OpTrackerLive.LiveTracker.constructor | src/song_operations/song_op_tracker.rs:71-112 | a tracker built from a program without empty choices; well-formed when the program is playable |
| OpTrackerLive.LiveTracker.MoveNext | src/song_operations/song_op_tracker.rs:314-406 | `move_next` takes the step `OpTracker.MoveNext` describes; a well-formed tracker never panics and stays well-formed |
| OpTrackerLive.LiveTracker.MoveBack | src/song_operations/song_op_tracker.rs:115-212 | `move_back` takes the step `OpTracker.MoveBack` describes; repaired, a well-formed tracker never panics and stays well-formed |
| OpTrackerLive.LiveTracker.Current | src/song_operations/song_op_tracker.rs:214-265 | `get_current` changes nothing; on a well-formed newer tracker it returns the path the cursors designate |
| OpTrackerLive.LiveTracker.SetPath | src/song_operations/song_op_tracker.rs:267-312 | `set_current`; repaired, on a valid path, `get_current` afterwards returns that path |
| OpTrackerLive.LiveTracker.Restart | src/song_operations/song_op_tracker.rs:408-455 | `to_start` keeps a well-formed tracker well-formed and never panics on it |
| OpTrackerLive.LiveTracker.SkipToEnd | src/song_operations/song_op_tracker.rs:457-492 | `to_end`; repaired, it keeps a well-formed tracker well-formed |
| OpTrackerPaths.GetCurrentThrough | src/song_operations/song_op_tracker.rs:214-265 | on a well-formed node, `get_current` is the designated child's index followed by that child's path |
| OpTrackerPaths.GetCurrentFollowsCursors | src/song_operations/song_op_tracker.rs:214-265 | on a well-formed newer tracker, `get_current` never panics and its path leads through the cursors to a song |
| OpTrackerPaths.OlderPathsEndInZero | src/song_operations.rs:271-322 | the older `get_current` is the newer one with one extra trailing 0 from `SinglePlay` |
| OpTrackerPaths.PositionDesignates | src/song_operations/song_op_tracker.rs:267-312 | the repaired cursor for child `i` keeps the node well-formed and designates child `i` |
| OpTrackerPaths.SetCurrentRoundTrip | src/song_operations/song_op_tracker.rs:267-312 | repaired `set_current(p)` on a valid path never panics, keeps the tracker well-formed, and `get_current` then returns `p` |
| OpTrackerPaths.SetCurrentAsWrittenWhenDirect | src/song_operations/song_op_tracker.rs:267-312 | along a path through kinds whose cursor is the child index (not `Stretch`, not `RandomPlay`), the written `set_current` equals the repaired one |
| OpTrackerPaths.SetCurrentRoundTripWhenDirect | src/song_operations/song_op_tracker.rs:267-312 | on such paths, including every `PlayOnce`/`InfiniteLoop` chain, the written `set_current(p)` is read back by `get_current` |
| OpTrackerPaths.SetCurrentEmpty | src/song_operations/song_op_tracker.rs:301-309 | an empty path leaves the tracker unchanged |
| OpTrackerPaths.SetCurrentMissesInStretch | src/song_operations/song_op_tracker.rs:267-312 | as written, in `Stretch` with length 2, `set_current([1])` stores 1, and `get_current` then names child 0 |
| OpTrackerPaths.SetCurrentMissesInRandomPlay | src/song_operations/song_op_tracker.rs:267-312 | as written, in `RandomPlay` shuffled `[1, 0]`, `set_current([0])` stores 0, and `get_current` then names child 1 |
| OpTrackerProofs.ToStartKeepsWellFormed | src/song_operations/song_op_tracker.rs:408-455 | `to_start` never panics on a well-formed tracker and leaves it well-formed |
| OpTrackerProofs.MoveNextKeepsWellFormed | src/song_operations/song_op_tracker.rs:314-406 | `move_next` never panics on a well-formed tracker and leaves it well-formed |
| OpTrackerProofs.NextPlayOnce | src/song_operations/song_op_tracker.rs:317-328 | the `PlayOnce` arm of `move_next` keeps the cursor in range |
| OpTrackerProofs.NextLoopNTimes | src/song_operations/song_op_tracker.rs:329-347 | the `LoopNTimes` arm keeps the cursor below `len*total_loops` |
| OpTrackerProofs.NextStretch | src/song_operations/song_op_tracker.rs:348-363 | the `Stretch` arm keeps the cursor below `len*length` |
| OpTrackerProofs.NextInfiniteLoop | src/song_operations/song_op_tracker.rs:364-373 | the `InfiniteLoop` arm of `move_next` never panics on a well-formed tracker and leaves it well-formed; the `% len` wrap itself is stated by `OpTrackerSteps.InfiniteLoopAdvances` |
| OpTrackerProofs.NextRandomPlay | src/song_operations/song_op_tracker.rs:374-389 | the `RandomPlay` arm keeps the cursor within the shuffled indices |
| OpTrackerProofs.NextInfiniteRandom | src/song_operations/song_op_tracker.rs:394-405 | the `InfiniteRandom` arm draws the next child below `len` |
| OpTrackerProofs.ToEndKeepsWellFormed | src/song_operations/song_op_tracker.rs:457-492 | the repaired `to_end` (last position rather than one past it) never panics on a well-formed tracker and leaves it well-formed |
| OpTrackerProofs.MoveBackKeepsWellFormed | src/song_operations/song_op_tracker.rs:115-212 | with that `to_end`, `move_back` never panics on a well-formed tracker and leaves it well-formed |
| OpTrackerProofs.BackPlayOnce | src/song_operations/song_op_tracker.rs:118-129 | the `PlayOnce` arm of `move_back` keeps the tracker well-formed |
| OpTrackerProofs.BackLoopNTimes | src/song_operations/song_op_tracker.rs:130-148 | the `LoopNTimes` arm keeps it well-formed |
| OpTrackerProofs.BackStretch | src/song_operations/song_op_tracker.rs:149-164 | the `Stretch` arm keeps it well-formed |
| OpTrackerProofs.BackInfiniteLoop | src/song_operations/song_op_tracker.rs:165-178 | the `InfiniteLoop` arm keeps it well-formed |
| OpTrackerProofs.BackRandomPlay | src/song_operations/song_op_tracker.rs:179-194 | the `RandomPlay` arm keeps it well-formed |
| OpTrackerProofs.BackSingleRandom | src/song_operations/song_op_tracker.rs:195-206 | the `SingleRandom` arm keeps it well-formed |
| OpTrackerSteps.EndedOnlyAtLastPosition | src/song_operations/song_op_tracker.rs:317-363 | a sequential group reports `Ended` iff its child ended at the group's last position, and then only the child changed |
| OpTrackerSteps.EndlessGroupsNeverEnd | src/song_operations/song_op_tracker.rs:364-373 | `InfiniteLoop`/`InfiniteRandom` `move_next` always reports `Current` and stays well-formed |
| OpTrackerSteps.EndlessWalkNeverEnds | src/song_operations/song_op_tracker.rs:394-405 | however many `move_next` steps are taken, an endless group reports `Current` each time |
| OpTrackerSteps.RewoundOnlyAtFirstPosition | src/song_operations/song_op_tracker.rs:115-194 | a sequential group reports `Rewound` iff its child rewound at position 0, and then only the child changed |
| OpTrackerSteps.SingleRandomReselectsOnRewind | src/song_operations/song_op_tracker.rs:195-206 | a rewinding `SingleRandom` passes on its child's answer; on `Rewound` it draws a new child |
| OpTrackerSteps.StepBackIntoGroupBreaksCursor | src/song_operations/song_op_tracker.rs:457-460 | as written, stepping back into a `PlayOnce` child puts its cursor past the end, and `get_current` then panics |
| OpTrackerSteps.StepBackIntoEndlessLoopPanics | src/song_operations/song_op_tracker.rs:471-473 | as written, stepping back into an `InfiniteLoop` child indexes `children[len]` and panics |
| OpTrackerSteps.OlderRandomPlayToEndPanics | src/song_operations.rs:475-481 | in the older tracker, stepping back from a song into a preceding `RandomPlay` panics: its `to_end` indexes the shuffled order one past its end |
| OpTrackerSteps.NestedPlayOnceStallsInLoop | src/song_operations/song_op_tracker.rs:408-426 | `to_start` of a `PlayOnce` resets only its own cursor: in `InfiniteLoop[PlayOnce[PlayOnce[a, b]]]`, once on `b` (path `[0, 0, 1]`), `move_next` reports `Current` and returns the same tracker on every draw, so `a` is never reached again |
| OpTrackerSteps.PlayOnceAdvancesToNextChild | src/song_operations/song_op_tracker.rs:317-328 | when the current child of a `PlayOnce` ended and a later child exists, `move_next` moves the cursor to the next child, starts that child from its start and reports `Current`, panicking only where that start does |
| OpTrackerSteps.InfiniteLoopAdvances | src/song_operations/song_op_tracker.rs:364-373 | when the current child of an `InfiniteLoop` ended, `move_next` sets the cursor to `(current + 1) % len`, restarts that child with `to_start` (the child that just ended, in a loop of one) and reports `Current`; it panics exactly when that `to_start` does |
| OpTrackerSteps.InfiniteLoopWrapsToFirstChild | src/song_operations/song_op_tracker.rs:364-373 | the wrap case: when the last child of an `InfiniteLoop` ended, `move_next` moves the cursor to the first child, starts it from its start and reports `Current` |
| OpTrackerSteps.PlayOnceRetreatsToPreviousChild | src/song_operations/song_op_tracker.rs:118-129 | when the current child of a `PlayOnce` rewound and an earlier child exists, `move_back` moves the cursor to the previous child, enters it with `to_end` and reports `Current` |
| OpTrackerSteps.InfiniteLoopRetreats | src/song_operations/song_op_tracker.rs:165-178 | when the current child of an `InfiniteLoop` rewound and the cursor is past 0, `move_back` moves the cursor to the previous child, enters it with `to_end` and reports `Current`; it panics exactly when that `to_end` does |
| OpTrackerSteps.StepBackKeepsCursorReadable | src/song_operations/song_op_tracker.rs:457-492 | repaired, after any step back `get_current` succeeds |
| OpConstructor.AsStr | src/song_operations/song_op_constructor.rs:28-38 | defines `as_str`: the label of each kind in the picker |
| OpConstructor.FromStr | src/song_operations/song_op_constructor.rs:40-51 | defines `from_str`: the kind a label names, `None` for any other string |
| OpConstructor.Update | src/song_operations/song_op_constructor.rs:326-400 | defines `update`: one editor message applied to the tree, panicking on the messages the source leaves unimplemented or marks impossible |
| OpConstructor.BuildItem | src/song_operations/song_op_constructor.rs:406-409 | defines the program of one editor row: a song row plays its song, a group row builds its group |
| OpConstructor.ChoiceIndex | src/song_operations/song_op_constructor.rs:28-38 | each kind has a label index within the seven-entry table |
| OpConstructor.FromStrOfAsStr | src/song_operations/song_op_constructor.rs:28-51 | `from_str(as_str(op)) == Some(op)` for all seven kinds |
| OpConstructor.FromStrOnlyLabels | src/song_operations/song_op_constructor.rs:40-51 | `from_str` recognises exactly the seven labels of `CONSTRUCTOR_CHOICES`, each as the kind it labels |
| OpConstructor.Default | src/song_operations/song_op_constructor.rs:186-197 | the default editor is an empty `PlayOnce` group with count 1 |
| OpConstructor.VerifyN | src/song_operations/song_op_constructor.rs:151-155 | `verify_n` gives `ChangeN(v)` exactly when the text parses as the `u32` `v`, else `Null` |
| OpConstructor.Push | src/song_operations/song_op_constructor.rs:318-320 | `push` appends the item and changes nothing else |
| OpConstructor.Insert | src/song_operations/song_op_constructor.rs:322-324 | `insert(idx, item)` places the item at `idx`, shifting the rest; past the end it panics |
| OpConstructor.RemoveAt | src/song_operations/song_op_constructor.rs:333-336 | `remove(idx)` deletes the `idx`-th item; past the end it panics |
| OpConstructor.Build | src/song_operations/song_op_constructor.rs:402-421 | `build` always yields a group |
| OpConstructorLive.GroupEditor.constructor | src/song_operations/song_op_constructor.rs:186-197 | a new editor is the default one |
| OpConstructorLive.GroupEditor.Push | src/song_operations/song_op_constructor.rs:318-320 | `push` on the mutable editor |
| OpConstructorLive.GroupEditor.Insert | src/song_operations/song_op_constructor.rs:322-324 | `insert` on the mutable editor; a panic changes nothing |
| OpConstructorLive.GroupEditor.Remove | src/song_operations/song_op_constructor.rs:333-336 | `list.remove` on the mutable editor; a panic changes nothing |
| OpConstructorLive.GroupEditor.Update | src/song_operations/song_op_constructor.rs:326-400 | `update` on the mutable editor, as `OpConstructor.Update` describes |
| OpConstructorProofs.BuildShape | src/song_operations/song_op_constructor.rs:402-421 | `build` picks the variant of `operation`, keeps list order and length, maps `Song(id)` to `SinglePlay(id)`, and passes `n` to `LoopNTimes`/`Stretch` |
| OpConstructorProofs.UpdateFrame | src/song_operations/song_op_constructor.rs:326-400 | `update` never changes the id; header messages leave the list alone, and list messages leave the header alone |
| OpConstructorProofs.SettersChangeOwnField | src/song_operations/song_op_constructor.rs:374-398 | `ChangeOperation`, `Collapse`, `Uncollapse` and `ChangeN` set only their own field. `CloseSelf`, `Generate` and `Null` change nothing |
| OpConstructorProofs.BuildAfterAdd | src/song_operations/song_op_constructor.rs:329-332 | `Add` appends the item's program to the built program |
| OpConstructorProofs.BuildAfterNewGroup | src/song_operations/song_op_constructor.rs:367-373 | `NewGroup` appends an empty `PlayOnce` |
| OpConstructorProofs.BuildAfterRemove | src/song_operations/song_op_constructor.rs:333-336 | `Remove(idx)` drops the `idx`-th child, and panics past the end |
| OpConstructorProofs.BuildAfterNestedUpdate | src/song_operations/song_op_constructor.rs:337-366 | a message for a nested group rebuilds only that child |
| OpConstructorProofs.BuildIgnoresUnusedCount | src/song_operations/song_op_constructor.rs:412-420 | `n` reaches the program only through `LoopNTimes` and `Stretch` |
| OpConstructorProofs.PlayOnceBuildPlaysListedSongs | src/song_operations/song_op_constructor.rs:402-421 | an editor made only of `PlayOnce` groups builds a program that plays its songs in list order |
| OpConstructorProofs.ItemPlaysListedSongs | src/song_operations/song_op_constructor.rs:406-409 | the same for one list item |
| OpConstructorPush.ItemHasId | src/song_operations/song_op_constructor.rs:98-114 | defines `item_has_id`, as written and corrected |
| OpConstructorPush.PushedToId | src/song_operations/song_op_constructor.rs:66-96 | defines `push_to_id`: the new row goes into the group that has the id, or next to the first row that has it |
| OpConstructorPush.HitFromIsFirst | src/song_operations/song_op_constructor.rs:79-91 | the scan of `push_to_id` stops at the first child for which `item_has_id` holds |
| OpConstructorPush.PushToId | src/song_operations/song_op_constructor.rs:66-96 | the loop of `push_to_id` computes `PushedToId` |
| OpConstructorPush.CorrectedHasIdFindsWidget | src/song_operations/song_op_constructor.rs:98-114 | corrected, `item_has_id` answers exactly whether the widget lies under the item |
| OpConstructorPush.CorrectedScanFindsWidget | src/song_operations/song_op_constructor.rs:79-91 | corrected, the scan finds a child exactly when some child holds the widget |
| OpConstructorPush.AsWrittenHasIdIsNonEmpty | src/song_operations/song_op_constructor.rs:101-110 | as written, for a group with another id, `item_has_id` is true iff the group's list is non-empty |
| OpConstructorPush.AsWrittenHasIdDoesNotPanic | src/song_operations/song_op_constructor.rs:98-114 | with every song key in the song map, `item_has_id` does not panic |
| OpConstructorPush.AsWrittenScanDoesNotPanic | src/song_operations/song_op_constructor.rs:105-109 | the `count()` evaluates every child without panicking when every song key is known |
| OpConstructorPush.CorrectedPushKeepsItem | src/song_operations/song_op_constructor.rs:66-96 | corrected, `push_to_id` on a group adds the item exactly when the widget lies under the group, and otherwise leaves the group unchanged |
| OpConstructorPush.AsWrittenPushLosesItem | src/song_operations/song_op_constructor.rs:66-114 | as written, pushing to the second of two sub-groups descends into the first, non-empty one and drops the item |
| UserInput.Contains | src/user_input.rs:92-99 | defines `contains` for each selection mode |
| UserInput.Toggled | src/user_input.rs:63-73 | defines what the Ctrl branches do to a list: remove the first occurrence, or append when absent |
| UserInput.Updated | src/user_input.rs:18-90 | defines `update_selection` for plain, Ctrl- and Shift-clicks on every selection mode, with the panic of a Shift-click on an empty list |
| UserInput.Toggle | src/user_input.rs:63-73 | the Ctrl toggle loop removes the first occurrence of the row, or appends it |
| UserInput.UpdateSelection | src/user_input.rs:18-90 | `update_selection` computes `Updated` |
| UserInput.PlainClickSelectsOne | src/user_input.rs:18-90 | without modifiers the result is `Single(clicked)`, which contains only the clicked row; Shift takes precedence over Ctrl |
| UserInput.ShiftSelectsSpan | src/user_input.rs:21-57 | a Shift-click anchors on the previous selection and yields a `Range` exactly when that anchor exists and differs from the clicked row. A resulting range contains the anchor, the clicked row and exactly the rows between them. With no selection the result is `Single(clicked)`; on the anchor itself it is `Single(clicked)`, or `None` when re-clicking the single row |
| UserInput.ShiftPanicsOnlyOnEmptyList | src/user_input.rs:33-46 | Shift panics exactly on an empty `Multiple` |
| UserInput.ToggledKeepsOthers | src/user_input.rs:63-73 | toggling leaves every other row's membership unchanged |
| UserInput.ToggledFlips | src/user_input.rs:63-73 | toggling flips the clicked row's membership in a list without duplicates |
| UserInput.ToggledTwice | src/user_input.rs:63-73 | toggling a row in and out again restores the list |
| UserInput.ToggledNoDuplicates | src/user_input.rs:63-73 | toggling keeps a list free of duplicates |
| UserInput.CtrlClickToggles | src/user_input.rs:59-86 | Ctrl always gives `Multiple`. Every row other than the clicked one keeps its membership. The clicked row flips, except from `Single(clicked)`, which gives `[clicked, clicked]` |
| SearchWindow.SelectedKeys | src/search_window.rs:66-81 | defines `selected_keys` of a tab |
| SearchWindow.UsedKeys | src/search_window.rs:83-103 | defines `used_keys`: every song id an entry refers to |
| SearchWindow.Updated | src/search_window.rs:226-250 | defines `SearchWindow::update` on the window state |
| SearchWindow.NewEntry | src/search_window.rs:37-51 | `Youtube` becomes a song entry and `YoutubeTab` a tab entry, keeping id, title and url; a search URL gives `InvalidKind` |
| SearchWindow.NewTab | src/search_window.rs:62-64 | `new_tab` holds its keys with nothing selected |
| SearchWindow.KeysAtMembers | src/search_window.rs:71-77 | a key is selected exactly when an in-range selected index points at it; out-of-range indices are dropped |
| SearchWindow.KeysAtInRange | src/search_window.rs:71-77 | with every index in range, one key per index, in index order |
| SearchWindow.RangeSelectsSlice | src/search_window.rs:75-77 | a range selection reads the slice of the tab that it covers |
| SearchWindow.SelectedKeysOfTab | src/search_window.rs:66-81 | a tab selects nothing when its mode is `None` or an out-of-range `Single`; otherwise it selects exactly the keys of the rows the mode contains |
| SearchWindow.SongIdsMembers | src/search_window.rs:83-103 | `used_keys` of a search lists exactly the ids of its song entries, skipping tabs |
| SearchWindow.UpdateKeepsKeys | src/search_window.rs:226-250 | `update` never changes the used keys or the kind of search, and only `SearchQueryChanged` changes the query |
| SearchWindow.SimpleSelectPicksRow | src/search_window.rs:228-235 | `SimpleSelectSong(idx)` selects row `idx` when the mode is `None`/`Single`, and changes nothing in `Multiple`/`Range` |
| SearchWindow.SelectOutsideTabIgnored | src/search_window.rs:228-243 | selecting outside a tab changes nothing |
| SearchWindow.Window.constructor | src/search_window.rs:190-197 | the default window has no query and an empty tab |
| SearchWindow.Window.Update | src/search_window.rs:226-250 | `update` on the mutable window, as `Updated` describes; a panic changes nothing |
| NdjsonLines.ReadSkipping | src/caching/line_based_reader.rs:42-53 | defines the older `read`: lines up to the first I/O error, those that parse |
| NdjsonLines.Pending | src/caching/line_based_reader.rs:60-61 | defines the `HashMap` of new items by id |
| NdjsonLines.Written | src/caching/line_based_reader.rs:72-90 | defines the file `extend` writes: the kept lines, then the remaining items in the map's order |
| NdjsonLines.ReadSkippingStopsAtError | src/caching/line_based_reader.rs:42-53 | nothing after the first I/O error is read |
| NdjsonLines.ReadSkippingAppend | src/caching/line_based_reader.rs:42-53 | before an I/O error, reading goes line by line, skipping lines that do not parse |
| NdjsonLines.ReadAllParsed | src/caching/line_based_reader.rs:42-53 | writing back what a fully parsed file read gives the file |
| NdjsonLines.ReadBackLines | src/caching/line_based_reader.rs:76-89 | lines written from pairs read back as those pairs |
| NdjsonLines.WithoutIdsMembers | src/caching/line_based_reader.rs:19-21 | the overwrite filter keeps exactly the lines with other ids, in order |
| NdjsonLines.CollectById | src/caching/line_based_reader.rs:60-61 | the `collect` into a map by id computes `Pending` |
| NdjsonLines.PendingLastWins | src/caching/line_based_reader.rs:60-61 | the pending map holds every id of the items, each with its last item |
| NdjsonLines.WriteLines | src/caching/line_based_reader.rs:76-78 | the first write loop writes each kept line, in order |
| NdjsonLines.WriteItems | src/caching/line_based_reader.rs:85-89 | the second write loop writes each remaining item once, in map order |
| NdjsonLines.WriteRewrite | src/caching/line_based_reader.rs:72-90 | the written file is the kept lines followed by the remaining items |
| NdjsonLines.ReadBackRewrite | src/caching/line_based_reader.rs:72-90 | reading the written file gives the kept pairs, then the appended items in the order written |
| NdjsonLines.RewriteIds | src/caching/line_based_reader.rs:72-90 | the ids read back are the kept ids plus the appended keys |
| NdjsonLines.RewriteUnique | src/caching/line_based_reader.rs:72-90 | each id is read back once, when the kept lines had unique ids distinct from the appended ones |
| NdjsonLines.RewriteLookup | src/caching/line_based_reader.rs:72-90 | an appended key is read back, and only with its appended item |
| LineReader.Filtered | src/caching/line_based_reader.rs:11-29 | defines what `filter_file_items` lets through and what it leaves in the pending map |
| LineReader.Merged | src/caching/line_based_reader.rs:55-97 | defines the rewrite the older `extend` makes |
| LineReader.FilterFileItems | src/caching/line_based_reader.rs:11-29 | the filter loop computes `Filtered`: with overwrite, lines whose id is pending are dropped; without it, every line is kept and pending ids found on file are removed. `filter_file_songs` (`src/song_cache.rs:283-300`) is the same filter |
| LineReader.Extend | src/caching/line_based_reader.rs:55-97 | `extend` writes the filtered old lines, then the remaining items; an unreadable file contributes nothing. `SongCache::extend` (`src/song_cache.rs:194-234`) writes the file the same way |
| LineReader.MergedIds | src/caching/line_based_reader.rs:55-97 | the merge keeps and appends disjoint id sets whose union is the file's ids plus the items' ids |
| LineReader.ExtendIds | src/caching/line_based_reader.rs:55-97 | the ids read back are the old ids plus the new ids; unique ids stay unique |
| LineReader.OverwriteReplaces | src/caching/line_based_reader.rs:19-21 | with overwrite, every new id is read back, and only with its new (last-given) item |
| LineReader.KeepingLeavesOldLines | src/caching/line_based_reader.rs:22-26 | without overwrite, the old lines come first unchanged, and only ids not on file are appended |
| LineReader.WithoutIdsUnique | src/caching/line_based_reader.rs:19-21 | filtering keeps ids unique |
| LineReader.ExtendTwiceKeeps | src/song_cache.rs:342-353 | extending twice with the same songs, without overwrite, leaves the file as after the first extend |
| AsyncLineReader.ReadStrict | src/caching/readers/line_based_reader.rs:47-64 | defines the newer `read`: an error for a file that does not open or a line that does not parse |
| AsyncLineReader.FilterKept | src/caching/readers/line_based_reader.rs:17-32 | defines the newer `filter_file_items` |
| AsyncLineReader.Merged | src/caching/readers/line_based_reader.rs:65-129 | defines the rewrite the newer `extend` makes, as written and corrected |
| AsyncLineReader.Read | src/caching/readers/line_based_reader.rs:47-64 | the read loop computes `ReadStrict` |
| AsyncLineReader.StrictRead | src/caching/readers/line_based_reader.rs:57-60 | `read` fails iff some line before the first I/O error does not parse; otherwise it reads what the lenient reader reads |
| AsyncLineReader.Extend | src/caching/readers/line_based_reader.rs:65-129 | `extend` writes the filtered old lines, then every item of the map |
| AsyncLineReader.CorrectedAgreesWithOlder | src/caching/readers/line_based_reader.rs:17-32 | on a readable file, the corrected merge equals the older reader's; with overwrite the written one does too |
| AsyncLineReader.BadLineDropsOldFile | src/caching/readers/line_based_reader.rs:95-113 | a line that does not parse makes the whole old file disappear: only the new items are written |
| AsyncLineReader.AsWrittenKeepingDuplicates | src/caching/readers/line_based_reader.rs:28-29 | as written, without overwrite, every new item is appended, so an id already on file appears twice |
| AsyncLineReader.CorrectedKeepsIdsUnique | src/caching/readers/line_based_reader.rs:95-113 | corrected, a file with unique ids keeps them unique |
| AsyncLineReader.CorrectedExtendTwiceKeeps | src/caching/readers/line_based_reader.rs:95-113 | corrected, extending twice with the same items without overwrite is extending once |
| AsyncLineReader.WrittenReadsStrictly | src/caching/readers/line_based_reader.rs:57-60 | a file whose every line parses reads without error |
| CacheReader.ReadFilter | src/caching/readers/cache_reader.rs:21-37 | defines `read_filter`: the read items whose key passes, a read error passed on |
| CacheReader.ReadFromIds | src/caching/readers/cache_reader.rs:39-68 | defines `read_from_ids` |
| CacheReader.Keyed | src/caching/readers/cache_reader.rs:29-35 | the filter never yields more entries than were read |
| CacheReader.Project | src/caching/readers/cache_reader.rs:53-58 | one `(id, item)` per entry |
| CacheReader.KeyedEntries | src/caching/readers/cache_reader.rs:21-37 | `read_filter` keeps exactly the read items whose id is in the filter, each keyed by its own id |
| CacheReader.ReadFromIdsEntries | src/caching/readers/cache_reader.rs:39-68 | `read_from_ids` yields `(k, r)` iff ids were asked for, the file read, `k` was asked for and `r` was read with id `k`. No ids, or a read error, gives nothing |
| CacheReader.LastWithFound | src/caching/readers/cache_reader.rs:21-37 | some item is read under `k` exactly when `k` is an id of the read items |
| CacheReader.CollectedReadKeepsLast | src/caching/item_cache.rs:21-25 | collected by `to_rwmap`, the read entries hold each requested id on file with the last item read under it |
| CacheReader.LookupFindsLast | src/caching/readers/cache_reader.rs:39-68 | a caller finds the last item read under a requested id, and nothing otherwise |
| CacheReader.KeepingReadsBackNewItem | src/caching/readers/line_based_reader.rs:95-113 | as written, after extending without overwrite, reading the id back finds the new item rather than the one kept on file; corrected, the old one |
| ItemCache.ToRwMap | src/caching/item_cache.rs:21-25 | defines `to_rwmap` |
| ItemCache.FetchExisting | src/caching/item_cache.rs:36-47 | defines `fetch_existing` |
| ItemCache.Dropped | src/caching/ndjson_cache.rs:34-38 | defines the map after `drop_from_cache` |
| ItemCache.ToRwMapLastWins | src/caching/item_cache.rs:21-25 | `to_rwmap` keeps every key, with the value of its last pair |
| ItemCache.FetchExistingEntries | src/caching/item_cache.rs:36-47 | `fetch_existing` returns exactly the keys in both the cache and `ids`, each with the cache's own value; missing ids are ignored |
| ItemCache.FetchTwice | src/caching/item_cache.rs:36-47 | fetching from a fetched map fetches the intersection |
| ItemCache.FetchAfterDrop | src/caching/ndjson_cache.rs:34-38 | after `drop_from_cache`, listed keys are gone, others keep their entries, and fetching finds only unlisted keys |
| BufferedCaches.NDJsonCache.constructor | src/caching/ndjson_cache.rs:11-21 | `new` starts with an empty map |
| BufferedCaches.NDJsonCache.DropFromCache | src/caching/ndjson_cache.rs:34-38 | `drop_from_cache` removes exactly the listed keys |
| BufferedCaches.NDJsonCache.Fetch | src/caching/item_cache.rs:36-47 | `fetch_existing` on this cache returns its entries for the requested keys and changes nothing |
| BufferedCaches.FolderCache.constructor | src/caching/folder_cache.rs:11-16 | `new` starts with an empty map |
| BufferedCaches.FolderCache.DropFromCache | src/caching/folder_cache.rs:29-33 | `drop_from_cache` removes exactly the listed ids |
| BufferedCaches.FolderCache.Fetch | src/caching/item_cache.rs:36-47 | `fetch_existing` on this cache returns its entries for the requested ids and changes nothing |
| SongCaches.Unused | src/song_cache.rs:46-54 | defines `find_unused_songs` |
| SongCaches.CacheFromNdjson | src/song_cache.rs:109-135 | defines `cache_from_ndjson` |
| SongCaches.Fetched | src/song_cache.rs:62-86 | defines `fetch` |
| SongCaches.CacheFromNdjsonLoads | src/song_cache.rs:109-135 | `cache_from_ndjson` panics iff ids are asked for and the file cannot be opened. Otherwise it returns the requested ids found on file, each with its last item, and stores them. Each is then held twice, by the map and by the caller |
| SongCaches.FetchedSongs | src/song_cache.rs:62-86 | `fetch` panics iff the file cannot be opened and some id is not cached. Otherwise it returns each requested id that is cached or on file, with the cached song if there is one, else the song from the file |
| SongCaches.FetchedCounts | src/song_cache.rs:62-86 | every returned song is held once more; loaded songs are stored; nothing else changes |
| SongCaches.HeldAreUsed | src/song_cache.rs:46-54 | after `fetch`, the returned songs are no longer unused, and the other songs stay as they were |
| SongCaches.ReleaseRestores | src/song_cache.rs:46-54 | dropping the fetched songs restores the counts, with the loaded songs added as unused |
| SongCaches.FreshAreUnused | src/song_cache.rs:175-182 | songs put in fresh `Arc`s are unused and replace what was under their ids |
| SongCaches.ExtendedAreUnused | src/song_cache.rs:142-192 | after `extend_file`, the appended songs are unused and the map keeps every key it had |
| SongCaches.TwoStored | src/song_cache.rs:356-393 | a fresh cache extended with two distinct songs holds both, unused |
| SongCaches.ExtendTwiceFromNothing | src/song_cache.rs:323-354 | extending twice with the same songs stores and writes each id |
| SongCaches.FetchingScenario | src/song_cache.rs:323-354 | after two extends, fetching the stored ids plus missing ones returns exactly the stored ones |
| SongCaches.FetchFindsOnly | src/song_cache.rs:350-353 | ids found neither in memory nor on file are absent from the result |
| SongCaches.CheckingUnusedScenario | src/song_cache.rs:356-393 | fetching one song leaves only the other unused; dropping the result makes both unused again |
| SongCaches.FetchCachedReleases | src/song_cache.rs:62-86 | fetching only cached ids and dropping the result leaves the map as it was |
| SongCaches.DroppingScenario | src/song_cache.rs:395-422 | dropping the songs one by one empties the unused set |
| SongCaches.SongCache.constructor | src/song_cache.rs:33-41 | a new cache has an empty map |
| SongCaches.SongCache.DropFromCache | src/song_cache.rs:56-60 | `drop_from_cache` removes exactly the listed keys |
| SongCaches.SongCache.CacheFromFile | src/song_cache.rs:109-135 | `cache_from_ndjson` on the mutable cache, as `CacheFromNdjson` describes |
| SongCaches.SongCache.Fetch | src/song_cache.rs:62-86 | `fetch` on the mutable cache, as `Fetched` describes |
| SongCaches.SongCache.ExtendFile | src/song_cache.rs:142-192 | `extend_file` writes the merged file and stores every appended song in a fresh `Arc` |
| SongCaches.SongCache.StoreAppended | src/song_cache.rs:175-182 | the append loop writes each remaining song once and inserts it with count 1 |
| CacheInterfaces.Get | src/song_cache.rs:244-250 | defines `get` |
| CacheInterfaces.Extended | src/song_cache.rs:252-256 | defines `extend` |
| CacheInterfaces.Popped | src/song_cache.rs:258-265 | defines `pop`, as written and corrected |
| CacheInterfaces.Replaced | src/song_cache.rs:267-270 | defines `replace` |
| CacheInterfaces.Len | src/song_cache.rs:274-276 | defines `len` as the size of the key set |
| CacheInterfaces.ConsistentGet | src/song_cache.rs:244-250 | on a consistent interface, `get` never panics and returns the cached songs asked for; `len` is the map's size |
| CacheInterfaces.OperationsKeepConsistent | src/song_cache.rs:252-270 | `extend`, `replace` and the corrected `pop` keep `keys` equal to the map's keys |
| CacheInterfaces.PopSplits | src/song_cache.rs:258-265 | `pop` returns exactly the listed songs the map held, and the map keeps exactly the others |
| CacheInterfaces.PopBreaksKeys | src/song_cache.rs:258-265 | as written, after `pop` the keys name only the popped songs: `get` for them panics and `len` counts songs the map no longer holds. Corrected, the interface stays consistent |
| CacheInterfaces.CacheInterface.constructor | src/song_cache.rs:237-242 | a new interface is empty |
| CacheInterfaces.CacheInterface.Extend | src/song_cache.rs:252-256 | `extend` on the mutable interface |
| CacheInterfaces.CacheInterface.Pop | src/song_cache.rs:258-265 | the `remove_entry` loop of `pop` computes `Popped` |
| CacheInterfaces.CacheInterface.Replace | src/song_cache.rs:267-270 | `replace` on the mutable interface |
| Paths.Push | src/cache_handlers.rs:46-57 | defines `PathBuf::push` as these paths use it |
| Paths.Stem | src/cache_handlers.rs:46-57 | defines `file_stem` |
| Paths.SetExtension | src/cache_handlers.rs:46-57 | defines `set_extension` |
| Paths.StemWithExtension | src/cache_handlers.rs:46-57 | the stem of a name with an extension set is its old stem |
| Paths.SetExtensionIdempotent | src/cache_handlers.rs:46-57 | setting an extension twice is setting it once |
| Paths.PushedNameWithExtension | src/cache_handlers.rs:46-57 | a dot-free id pushed on a folder, with an extension set, is the component `id.ext` under the folder |
| Paths.ResolvedPathIsFixed | src/cache_handlers.rs:150-157 | resolving a rooted, resolved path again gives it unchanged |
| CacheHandlers.GetThumbnail | src/cache_handlers.rs:46-51 | defines `get_thumbnail` |
| CacheHandlers.GetSong | src/cache_handlers.rs:52-57 | defines `get_song` |
| CacheHandlers.ValidatePaths | src/cache_handlers.rs:134-174 | defines `validate_paths` |
| CacheHandlers.ResolvedPaths | src/cache_handlers.rs:46-57 | `get_thumbnail`/`get_song` are `Some` iff a path is stored; a generated id resolves to `<folder>/<id>.jpg` or `<folder>/<id>.mp3`; likewise for the second copy (`src/cache_handlers/cache_handle.rs:25-36`) |
| CacheHandlers.EnsuredThumbnail | src/cache_handlers.rs:61-67 | `ensure_thumbnail` stores a new id only when none is stored, returns the stored path, and changes nothing else; likewise `src/cache_handlers/cache_handle.rs:40-46` |
| CacheHandlers.EnsuredSong | src/cache_handlers.rs:69-74 | `ensure_song` does the same for the song path; likewise `src/cache_handlers/cache_handle.rs:48-53` |
| CacheHandlers.EnsureIdempotent | src/cache_handlers/cache_handle.rs:40-53 | ensuring twice is ensuring once, whatever id the second call would get; afterwards the path resolves |
| CacheHandlers.ValidateNothingToFix | src/cache_handlers.rs:140-163 | `validate_paths` returns `None` iff no item needs repair, and an item with no paths never does |
| CacheHandlers.ValidateRepairs | src/cache_handlers.rs:150-172 | a repaired map keeps every key. A repaired item loses exactly the paths whose file is missing, stores the joined path of each file that exists, and keeps its colour. Other items are unchanged |
| CacheHandlers.RepairIsFinal | src/cache_handlers.rs:134-174 | with a rooted cache folder, validating a repaired map finds nothing to fix |
| CacheHandlers.CacheHandler.constructor | src/cache_handlers.rs:117-125 | a new handler has its folder and no items |
| CacheHandlers.CacheHandler.Get | src/cache_handlers.rs:127-133 | `get` inserts an empty item for an unknown key, leaves existing items untouched, and hands out a handle on that key |
| CacheHandlers.CacheHandle.constructor | src/cache_handlers.rs:127-133 | a handle names its handler and key |
| CacheHandlers.CacheHandle.EnsureThumbnail | src/cache_handlers.rs:92-95 | updates the borrowed item as `ensure_thumbnail` does, and returns its full `.jpg` path |
| CacheHandlers.CacheHandle.EnsureSong | src/cache_handlers.rs:97-99 | `todo!()`: always panics |

## Left out

- I/O is not modelled. A file is its list of lines, or `None` when it cannot be opened.
  Write and flush errors, the `.ndjson.tmp` file and its rename, and file locks are left
  out. `println!` output is left out too.
- JSON serialisation is not modelled. Each line is given with what `serde_json` parses it
  to. Writing an item writes its own `json` text, which is assumed to read back as the same
  item.
- `async` and `await`, `Arc`/`Mutex`/`RwLock`, and futures become plain values. The song
  cache models each `Arc` as its value plus a reference count.
  - `CacheInterface` keeps songs as values, without counts.
  - Concurrent access is not modelled.
- `HashMap`/`HashSet` iteration order is not modelled as a fixed order. Wherever order shows
  in the output, the order chosen is returned as an explicit `order` that lists each key
  once. Every such order is allowed.
- `to_hash_map` (in `song.rs`) is not part of this model. It is taken to collect songs by
  id with the last one winning, as `collect` into a `HashMap` does.
- Infinite `into_iter` streams are observed as finite prefixes. The `Dice` value says how
  many rounds are observed.
- Random choice is modelled by its set of possible outcomes, not by probabilities.
- The tracker and the op constructor are owned trees mutated through `&mut self`. They are
  modelled as values, with step functions that return the new tree. `LiveTracker` and
  `GroupEditor` hold the root as a field. Nothing can alias inside an owned tree, so no
  in-place aliasing is lost.
- The older tracker has no `set_current`; `SetCurrent` with `Older` is not used.
- The user interface is left out: views and headers, messages other than those modelled,
  `Cm`/`Task` results, and widget ids, which become naturals.
- Colours (`get_color`/`set_color`) and all floating-point styling are not modelled.
- Left out entirely: the Python backend, the audio managers, the network client, the
  settings and song-list files, the folder-based readers, `cache_mapper.rs`, and the serde
  visitor in `cache_handlers.rs`.
- `CacheHandler::new` and `NDJsonCache::new` create directories; the model does not.
- `CacheHandleItem` paths are component lists. Parsing a path string, `..` resolution
  beyond `set_extension`'s rule, and non-UTF-8 names are not modelled. A generated UUID is
  a single dot-free component given as a parameter. Whether a path exists is a predicate
  parameter.
- CacheHandlers.CacheHandle.EnsureThumbnail: requires the key to be in the handler's map.
  In Rust the handle's borrow of the item guarantees this.
- CacheInterfaces.Get: `get` returns a lazy iterator. The model collects it, so the
  `MissingKey` panic appears as soon as any requested key is missing. In Rust it appears
  when the iterator reaches that key.
- `Decimal.ParseU32` models `str::parse::<u32>` for ASCII digits and an optional `+`, which
  is all `verify_n` relies on.
- `usize` subtraction is modelled as a debug build runs it: on an empty group,
  `length * total_loops - 1` in `move_next`, the `- 1` of `Stretch::to_end`, of the newer
  `RandomPlay::to_end` (`randomized_indices.len() - 1`) and of the repaired `to_end` panic
  with `Underflow`. A release build would wrap to `usize::MAX` instead and go on with that
  cursor.
- `to_start` of `PlayOnce`, `LoopNTimes` and `Stretch` leaves their children's cursors where
  they were, so a finite group nested in another inside a loop restarts on its last position
  (`OpTrackerSteps.NestedPlayOnceStallsInLoop`). The model keeps that behaviour. A deep
  `to_start` that would restart every child is not modelled: it would change every step of
  `move_next` built on it.
- `song_list.rs` and `chunked_list.rs` each declare only a data struct, `PagedSongList` with
  three fields, and no behaviour: its methods are commented out. The model has nothing of
  theirs to state.

## Findings

| source | as written | input that shows it | evidently intended | confidence | as-written member | corrected member |
|---|---|---|---|---|---|---|
| src/song_operations/song_op_tracker.rs:457-473 | `to_end` sets the cursor to one past the last position for `PlayOnce` and `LoopNTimes`. `InfiniteLoop` then indexes `children[len]`. Every `move_back` that enters a group from its end uses `to_end` | `PlayOnce[PlayOnce[song], PlayOnce[song]]` at position 1: `move_back` leaves the first child's cursor at 1 of 1, and `get_current` panics. `PlayOnce[InfiniteLoop[song], song]`: `move_back` panics | the cursor goes to the last valid position (`len - 1`, `len*n - 1`), as `Stretch` already does | high (not executed) | OpTrackerSteps.StepBackIntoGroupBreaksCursor, OpTrackerSteps.StepBackIntoEndlessLoopPanics | OpTrackerProofs.ToEndKeepsWellFormed, OpTrackerProofs.MoveBackKeepsWellFormed, OpTrackerSteps.StepBackKeepsCursorReadable |
| src/song_operations.rs:475-481 | the older `RandomPlay::to_end` sets `current = len` and then indexes `randomized_indices[len]` | any `RandomPlay` tracker: `to_end` panics | the last shuffled position | high (not executed) | OpTrackerSteps.OlderRandomPlayToEndPanics | OpTrackerProofs.ToEndKeepsWellFormed |
| src/song_operations/song_op_tracker.rs:301-309 | `set_current` stores the child index itself as `current` for every kind. But `get_current` reads `current / length` for `Stretch` and `randomized_indices[current]` for `RandomPlay` | `Stretch(length 2)[song, song]`: `set_current([1])`, then `get_current` gives `[0]`. `RandomPlay` shuffled `[1, 0]`: `set_current([0])`, then `get_current` gives `[1]` | `get_current` after `set_current(p)` returns `p` | medium (not executed) | OpTrackerPaths.SetCurrentMissesInStretch, OpTrackerPaths.SetCurrentMissesInRandomPlay | OpTrackerPaths.SetCurrentRoundTrip |
| src/song_operations/song_op_constructor.rs:105-109 | `item_has_id` on a group with another id answers `count() > 0`: any non-empty group claims every widget | a root with sub-groups 1 = `[song]` and 2 = `[]`: pushing to group 2 descends into group 1, finds no match there, and drops the item | true exactly when the widget lies somewhere under the item (`any`) | high (not executed) | OpConstructorPush.AsWrittenPushLosesItem, OpConstructorPush.AsWrittenHasIdIsNonEmpty | OpConstructorPush.CorrectedPushKeepsItem, OpConstructorPush.CorrectedHasIdFindsWidget |
| src/song_cache.rs:258-265 | `CacheInterface::pop` sets `keys` to the popped keys, which are exactly the ones no longer in `cache` | `replace({r})`, then `pop([r.id])`: `len` is 1 for an empty map, and `get({r.id})` panics on the missing key | `keys` stays the set of keys left in `cache` | high (not executed) | CacheInterfaces.PopBreaksKeys | CacheInterfaces.OperationsKeepConsistent |
| src/caching/readers/line_based_reader.rs:28-29, 109-113 | without overwrite, the newer `filter_file_items` keeps every old line, and `extend` still appends every new item | a file holding item `r`, extended with `r` again without overwrite: the file holds `r` twice, and a later read returns the new copy | an item already on file is not written again, as the older reader and `filter_file_songs` do | medium (not executed) | AsyncLineReader.AsWrittenKeepingDuplicates, CacheReader.KeepingReadsBackNewItem | AsyncLineReader.CorrectedKeepsIdsUnique, AsyncLineReader.CorrectedExtendTwiceKeeps |
