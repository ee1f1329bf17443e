/** The playback tracker: a tree of cursors mirroring a playlist program, moved one song at
    a time. Two versions of it exist in the repository; `Variant` selects the arms in which
    they differ. */
module OpTracker {
  import opened Wrappers
  import opened Collections
  import opened Randomness
  import SongOps

  /** `Older` is the tracker in `song_operations.rs`, `Newer` the one in
      `song_operations/song_op_tracker.rs`. `Repaired` is `Newer` with `to_end` leaving each
      cursor on the last position instead of one past it, and with `set_current` storing the
      position that designates the requested child. */
  datatype Variant = Older | Newer | Repaired

  datatype NextResult = NextCurrent | Ended
  datatype BackResult = Rewound | BackCurrent

  /** Cursor state of one node. The older tracker calls the `current` of the two random
      kinds `index`. */
  datatype Tracker =
    | SinglePlay
    | PlayOnce(current: nat, children: seq<Tracker>)
    | LoopNTimes(current: nat, totalLoops: nat, children: seq<Tracker>)
    | Stretch(current: nat, length: nat, children: seq<Tracker>)
    | InfiniteLoop(current: nat, children: seq<Tracker>)
    | RandomPlay(current: nat, randomizedIndices: seq<nat>, children: seq<Tracker>)
    | SingleRandom(current: nat, children: seq<Tracker>)
    | InfiniteRandom(current: nat, children: seq<Tracker>)

  /** The same node with its cursor at `c`. */
  function WithCurrent(t: Tracker, c: nat): (r: Tracker)
    requires !t.SinglePlay?
    ensures !r.SinglePlay? && r.current == c && r.children == t.children
  {
    match t
    case PlayOnce(_, ch) => PlayOnce(c, ch)
    case LoopNTimes(_, n, ch) => LoopNTimes(c, n, ch)
    case Stretch(_, l, ch) => Stretch(c, l, ch)
    case InfiniteLoop(_, ch) => InfiniteLoop(c, ch)
    case RandomPlay(_, ri, ch) => RandomPlay(c, ri, ch)
    case SingleRandom(_, ch) => SingleRandom(c, ch)
    case InfiniteRandom(_, ch) => InfiniteRandom(c, ch)
  }

  /** The same node with child `i` replaced by `c`. */
  function WithChild(t: Tracker, i: nat, c: Tracker): (r: Tracker)
    requires !t.SinglePlay? && i < |t.children|
    ensures !r.SinglePlay? && r.current == t.current && r.children == t.children[i := c]
  {
    match t
    case PlayOnce(cur, ch) => PlayOnce(cur, ch[i := c])
    case LoopNTimes(cur, n, ch) => LoopNTimes(cur, n, ch[i := c])
    case Stretch(cur, l, ch) => Stretch(cur, l, ch[i := c])
    case InfiniteLoop(cur, ch) => InfiniteLoop(cur, ch[i := c])
    case RandomPlay(cur, ri, ch) => RandomPlay(cur, ri, ch[i := c])
    case SingleRandom(cur, ch) => SingleRandom(cur, ch[i := c])
    case InfiniteRandom(cur, ch) => InfiniteRandom(cur, ch[i := c])
  }

  /** Every panic of a recursive call propagates; a result replaces child `i`. */
  function Into(t: Tracker, i: nat, child: Exec<Tracker>): (r: Exec<Tracker>)
    requires !t.SinglePlay? && i < |t.children|
    ensures r.Done? <==> child.Done?
    ensures r.Done? ==> r.value == WithChild(t, i, child.value)
  {
    match child
    case Panics(p) => Panics(p)
    case Done(c) => Done(WithChild(t, i, c))
  }

  /** `to_start`: moves the cursor to the start of its sequence. The random kinds draw again. */
  function ToStart(t: Tracker, d: Dice): Exec<Tracker>
  {
    match t
    case SinglePlay => Done(t)
    case PlayOnce(_, ch) => Done(PlayOnce(0, ch))
    case LoopNTimes(_, n, ch) => Done(LoopNTimes(0, n, ch))
    case Stretch(_, l, ch) => Done(Stretch(0, l, ch))
    case InfiniteLoop(_, ch) =>
      if |ch| == 0 then Panics(IndexOutOfBounds)
      else Into(InfiniteLoop(0, ch), 0, ToStart(ch[0], Kid(d, 0)))
    case RandomPlay(_, ri, ch) =>
      var order := Shuffle(d.order, ri);
      if |order| == 0 || order[0] >= |ch| then Panics(IndexOutOfBounds)
      else Into(RandomPlay(0, order, ch), order[0], ToStart(ch[order[0]], Kid(d, 0)))
    case SingleRandom(_, ch) =>
      if |ch| == 0 then Panics(EmptyRange)
      else
        var j := PickBelow(d, |ch|);
        Into(SingleRandom(j, ch), j, ToStart(ch[j], Kid(d, 0)))
    case InfiniteRandom(_, ch) =>
      if |ch| == 0 then Panics(EmptyRange)
      else
        var j := PickBelow(d, |ch|);
        Into(InfiniteRandom(j, ch), j, ToStart(ch[j], Kid(d, 0)))
  }

  /** `to_end`: moves the cursor to the end of its sequence. As written, `PlayOnce`,
      `LoopNTimes` and `InfiniteLoop` put it one past the last position; the older
      `RandomPlay` too. */
  function ToEnd(t: Tracker, v: Variant): Exec<Tracker>
  {
    match t
    case SinglePlay => Done(t)
    case PlayOnce(_, ch) =>
      if v == Repaired then
        if |ch| == 0 then Panics(Underflow) else Done(PlayOnce(|ch| - 1, ch))
      else Done(PlayOnce(|ch|, ch))
    case LoopNTimes(_, n, ch) =>
      if v == Repaired then
        if n * |ch| == 0 then Panics(Underflow) else Done(LoopNTimes(n * |ch| - 1, n, ch))
      else Done(LoopNTimes(n * |ch|, n, ch))
    case Stretch(_, l, ch) =>
      if l * |ch| == 0 then Panics(Underflow) else Done(Stretch(l * |ch| - 1, l, ch))
    case InfiniteLoop(_, ch) =>
      if v == Repaired then
        if |ch| == 0 then Panics(Underflow)
        else Into(InfiniteLoop(|ch| - 1, ch), |ch| - 1, ToEnd(ch[|ch| - 1], v))
      else Panics(IndexOutOfBounds)   // `children[children.len()]`
    case RandomPlay(_, ri, ch) =>
      if v == Older then Panics(IndexOutOfBounds)   // `randomized_indices[randomized_indices.len()]`
      else if |ri| == 0 then Panics(Underflow)
      else if ri[|ri| - 1] >= |ch| then Panics(IndexOutOfBounds)
      else Into(RandomPlay(|ri| - 1, ri, ch), ri[|ri| - 1], ToEnd(ch[ri[|ri| - 1]], v))
    case SingleRandom(cur, ch) =>
      if cur >= |ch| then Panics(IndexOutOfBounds) else Into(t, cur, ToEnd(ch[cur], v))
    case InfiniteRandom(cur, ch) =>
      if cur >= |ch| then Panics(IndexOutOfBounds) else Into(t, cur, ToEnd(ch[cur], v))
  }

  /** After a child ended: enter child `i` from its start, and report `Current`. */
  function Advance(t: Tracker, i: nat, d: Dice): (r: Exec<(NextResult, Tracker)>)
    requires !t.SinglePlay?
    ensures r.Done? ==> r.value.0 == NextCurrent
  {
    if i >= |t.children| then Panics(IndexOutOfBounds)
    else (match ToStart(t.children[i], d)
      case Panics(p) => Panics(p)
      case Done(c) => Done((NextCurrent, WithChild(t, i, c))))
  }

  /** `move_next`: advances by one song. `Ended` means this node has no next song; the
      child that ended is kept in its final state. */
  function MoveNext(t: Tracker, d: Dice): Exec<(NextResult, Tracker)>
  {
    match t
    case SinglePlay => Done((Ended, t))
    case PlayOnce(cur, ch) =>
      if cur >= |ch| then Panics(IndexOutOfBounds)
      else (match MoveNext(ch[cur], Kid(d, 0))
        case Panics(p) => Panics(p)
        case Done((r, c)) =>
          var t1 := WithChild(t, cur, c);
          if r == NextCurrent then Done((NextCurrent, t1))
          else if cur == |ch| - 1 then Done((Ended, t1))
          else Advance(WithCurrent(t1, cur + 1), cur + 1, Kid(d, 1)))
    case LoopNTimes(cur, n, ch) =>
      if |ch| == 0 then Panics(DivisionByZero)
      else (match MoveNext(ch[cur % |ch|], Kid(d, 0))
        case Panics(p) => Panics(p)
        case Done((r, c)) =>
          var t1 := WithChild(t, cur % |ch|, c);
          if r == NextCurrent then Done((NextCurrent, t1))
          else if |ch| * n == 0 then Panics(Underflow)   // `length * total_loops - 1`
          else if cur == |ch| * n - 1 then Done((Ended, t1))
          else Advance(WithCurrent(t1, cur + 1), (cur + 1) % |ch|, Kid(d, 1)))
    case Stretch(cur, l, ch) =>
      if l == 0 then Panics(DivisionByZero)
      else if cur / l >= |ch| then Panics(IndexOutOfBounds)
      else (match MoveNext(ch[cur / l], Kid(d, 0))
        case Panics(p) => Panics(p)
        case Done((r, c)) =>
          var t1 := WithChild(t, cur / l, c);
          if r == NextCurrent then Done((NextCurrent, t1))
          else if cur >= |ch| * l - 1 then Done((Ended, t1))
          else Advance(WithCurrent(t1, cur + 1), (cur + 1) / l, Kid(d, 1)))
    case InfiniteLoop(cur, ch) =>
      if cur >= |ch| then Panics(IndexOutOfBounds)
      else (match MoveNext(ch[cur], Kid(d, 0))
        case Panics(p) => Panics(p)
        case Done((r, c)) =>
          var t1 := WithChild(t, cur, c);
          if r == NextCurrent then Done((NextCurrent, t1))
          else Advance(WithCurrent(t1, (cur + 1) % |ch|), (cur + 1) % |ch|, Kid(d, 1)))
    case RandomPlay(cur, ri, ch) =>
      if cur >= |ri| || ri[cur] >= |ch| then Panics(IndexOutOfBounds)
      else (match MoveNext(ch[ri[cur]], Kid(d, 0))
        case Panics(p) => Panics(p)
        case Done((r, c)) =>
          var t1 := WithChild(t, ri[cur], c);
          if r == NextCurrent then Done((NextCurrent, t1))
          else if cur + 1 >= |ch| then Done((Ended, t1))
          else if cur + 1 >= |ri| then Panics(IndexOutOfBounds)
          else Advance(WithCurrent(t1, cur + 1), ri[cur + 1], Kid(d, 1)))
    case SingleRandom(cur, ch) =>
      if cur >= |ch| then Panics(IndexOutOfBounds)
      else (match MoveNext(ch[cur], Kid(d, 0))
        case Panics(p) => Panics(p)
        case Done((r, c)) => Done((r, WithChild(t, cur, c))))
    case InfiniteRandom(cur, ch) =>
      if cur >= |ch| then Panics(IndexOutOfBounds)
      else (match MoveNext(ch[cur], Kid(d, 0))
        case Panics(p) => Panics(p)
        case Done((r, c)) =>
          var t1 := WithChild(t, cur, c);
          if r == NextCurrent then Done((NextCurrent, t1))
          else
            var j := PickBelow(d, |ch|);
            Advance(WithCurrent(t1, j), j, Kid(d, 1)))
  }

  /** After a child rewound: enter child `i` from its end, and report `Current`. */
  function Retreat(t: Tracker, i: nat, v: Variant): (r: Exec<(BackResult, Tracker)>)
    requires !t.SinglePlay?
    ensures r.Done? ==> r.value.0 == BackCurrent
  {
    if i >= |t.children| then Panics(IndexOutOfBounds)
    else (match ToEnd(t.children[i], v)
      case Panics(p) => Panics(p)
      case Done(c) => Done((BackCurrent, WithChild(t, i, c))))
  }

  /** `move_back`: steps back by one song. `Rewound` means this node was at its first
      song. */
  function MoveBack(t: Tracker, d: Dice, v: Variant): Exec<(BackResult, Tracker)>
  {
    match t
    case SinglePlay => Done((Rewound, t))
    case PlayOnce(cur, ch) =>
      if cur >= |ch| then Panics(IndexOutOfBounds)
      else (match MoveBack(ch[cur], Kid(d, 0), v)
        case Panics(p) => Panics(p)
        case Done((r, c)) =>
          var t1 := WithChild(t, cur, c);
          if r == BackCurrent then Done((BackCurrent, t1))
          else if cur == 0 then Done((Rewound, t1))
          else Retreat(WithCurrent(t1, cur - 1), cur - 1, v))
    case LoopNTimes(cur, n, ch) =>
      if |ch| == 0 then Panics(DivisionByZero)
      else (match MoveBack(ch[cur % |ch|], Kid(d, 0), v)
        case Panics(p) => Panics(p)
        case Done((r, c)) =>
          var t1 := WithChild(t, cur % |ch|, c);
          if r == BackCurrent then Done((BackCurrent, t1))
          else if cur == 0 then Done((Rewound, t1))
          else Retreat(WithCurrent(t1, cur - 1), (cur - 1) % |ch|, v))
    case Stretch(cur, l, ch) =>
      if l == 0 then Panics(DivisionByZero)
      else if cur / l >= |ch| then Panics(IndexOutOfBounds)
      else (match MoveBack(ch[cur / l], Kid(d, 0), v)
        case Panics(p) => Panics(p)
        case Done((r, c)) =>
          var t1 := WithChild(t, cur / l, c);
          if r == BackCurrent then Done((BackCurrent, t1))
          else if cur == 0 then Done((Rewound, t1))
          else Retreat(WithCurrent(t1, cur - 1), (cur - 1) / l, v))
    case InfiniteLoop(cur, ch) =>
      if cur >= |ch| then Panics(IndexOutOfBounds)
      else (match MoveBack(ch[cur], Kid(d, 0), v)
        case Panics(p) => Panics(p)
        case Done((r, c)) =>
          var t1 := WithChild(t, cur, c);
          if r == BackCurrent then Done((BackCurrent, t1))
          else if cur == 0 then Done((Rewound, t1))
          else Retreat(WithCurrent(t1, cur - 1), cur - 1, v))
    case RandomPlay(cur, ri, ch) =>
      if cur >= |ri| || ri[cur] >= |ch| then Panics(IndexOutOfBounds)
      else (match MoveBack(ch[ri[cur]], Kid(d, 0), v)
        case Panics(p) => Panics(p)
        case Done((r, c)) =>
          var t1 := WithChild(t, ri[cur], c);
          if r == BackCurrent then Done((BackCurrent, t1))
          else if cur == 0 then Done((Rewound, t1))
          else Retreat(WithCurrent(t1, cur - 1), ri[cur - 1], v))
    case SingleRandom(cur, ch) =>
      if cur >= |ch| then Panics(IndexOutOfBounds)
      else (match MoveBack(ch[cur], Kid(d, 0), v)
        case Panics(p) => Panics(p)
        case Done((r, c)) =>
          var t1 := WithChild(t, cur, c);
          if r == BackCurrent then Done((BackCurrent, t1))
          else
            // a new selection, entered from its end; the group itself reports `Rewound`
            var j := PickBelow(d, |ch|);
            match Retreat(WithCurrent(t1, j), j, v)
            case Panics(p) => Panics(p)
            case Done((_, t2)) => Done((Rewound, t2)))
    case InfiniteRandom(cur, ch) =>
      if cur >= |ch| then Panics(IndexOutOfBounds)
      else (match MoveBack(ch[cur], Kid(d, 0), v)
        case Panics(p) => Panics(p)
        case Done((r, c)) => Done((r, WithChild(t, cur, c))))
  }

  function Prefixed(i: nat, rest: Exec<seq<nat>>): (r: Exec<seq<nat>>)
    ensures r.Done? <==> rest.Done?
    ensures r.Done? ==> r.value == [i] + rest.value
  {
    match rest
    case Panics(p) => Panics(p)
    case Done(path) => Done([i] + path)
  }

  /** `get_current`: the child indices leading to the current song, outermost first. */
  function GetCurrent(t: Tracker, v: Variant): Exec<seq<nat>>
  {
    match t
    case SinglePlay => Done(if v == Older then [0] else [])
    case PlayOnce(cur, ch) =>
      if cur >= |ch| then Panics(IndexOutOfBounds) else Prefixed(cur, GetCurrent(ch[cur], v))
    case LoopNTimes(cur, _, ch) =>
      if |ch| == 0 then Panics(DivisionByZero)
      else Prefixed(cur % |ch|, GetCurrent(ch[cur % |ch|], v))
    case Stretch(cur, l, ch) =>
      if l == 0 then Panics(DivisionByZero)
      else if cur / l >= |ch| then Panics(IndexOutOfBounds)
      else Prefixed(cur / l, GetCurrent(ch[cur / l], v))
    case InfiniteLoop(cur, ch) =>
      if cur >= |ch| then Panics(IndexOutOfBounds) else Prefixed(cur, GetCurrent(ch[cur], v))
    case RandomPlay(cur, ri, ch) =>
      if cur >= |ri| || ri[cur] >= |ch| then Panics(IndexOutOfBounds)
      else Prefixed(ri[cur], GetCurrent(ch[ri[cur]], v))
    case SingleRandom(cur, ch) =>
      if cur >= |ch| then Panics(IndexOutOfBounds) else Prefixed(cur, GetCurrent(ch[cur], v))
    case InfiniteRandom(cur, ch) =>
      if cur >= |ch| then Panics(IndexOutOfBounds) else Prefixed(cur, GetCurrent(ch[cur], v))
  }

  /** Where `set_current` puts the cursor for child index `i`. As written it stores `i`
      itself for every kind; repaired, `Stretch` stores the first of child `i`'s `length`
      positions and `RandomPlay` the position of `i` in its shuffled order, so that
      `get_current` names child `i` again. */
  function Position(t: Tracker, i: nat, v: Variant): nat
    requires !t.SinglePlay?
  {
    if v != Repaired then i
    else (match t
      case Stretch(_, l, _) => i * l
      case RandomPlay(_, ri, _) => IndexOf(ri, i)
      case PlayOnce(_, _) => i
      case LoopNTimes(_, _, _) => i
      case InfiniteLoop(_, _) => i
      case SingleRandom(_, _) => i
      case InfiniteRandom(_, _) => i)
  }

  /** `set_current` (the older tracker has none): stores the first index as the cursor and
      hands the rest to that child, if any indices remain. */
  function SetCurrent(t: Tracker, indices: seq<nat>, v: Variant): Exec<Tracker>
  {
    if t.SinglePlay? || |indices| == 0 then Done(t)
    else
      var t1 := WithCurrent(t, Position(t, indices[0], v));
      if |indices| == 1 then Done(t1)
      else if indices[0] >= |t.children| then Panics(IndexOutOfBounds)
      else Into(t1, indices[0], SetCurrent(t.children[indices[0]], indices[1..], v))
  }

  /** All children built, or the first panic. */
  function Collect(es: seq<Exec<Tracker>>): (r: Exec<seq<Tracker>>)
    ensures r.Done? <==> forall i :: 0 <= i < |es| ==> es[i].Done?
    ensures r.Done? ==> |r.value| == |es| && forall i :: 0 <= i < |es| ==> r.value[i] == es[i].value
    decreases |es|
  {
    if |es| == 0 then Done([])
    else (match es[0]
      case Panics(p) => Panics(p)
      case Done(c) =>
        match Collect(es[1..])
        case Panics(p) =>
          assert exists i :: 1 <= i < |es| && !es[i].Done? by {
            var i :| 0 <= i < |es| - 1 && !es[1..][i].Done?;
            assert !es[i + 1].Done?;
          }
          Panics(p)
        case Done(cs) => Done([c] + cs))
  }

  /** `map`: one fresh tracker per child program, child `i` drawing from slot `i`. */
  function FromAll(op: SongOps.RecursiveSongOp, d: Dice): (r: Exec<seq<Tracker>>)
    requires !op.SinglePlay?
    ensures r.Done? ==> |r.value| == |op.ops|
    decreases op, 0
  {
    Collect(seq(|op.ops|, i requires 0 <= i < |op.ops| => From(op.ops[i], Kid(d, i))))
  }

  /** `From<&RecursiveSongOp>`: a fresh tracker at the start of the program. */
  function From(op: SongOps.RecursiveSongOp, d: Dice): Exec<Tracker>
    decreases op, 1
  {
    if op.SinglePlay? then Done(SinglePlay)
    else (match FromAll(op, d)
      case Panics(p) => Panics(p)
      case Done(cs) =>
        var len := |op.ops|;
        match op
        case PlayOnce(_) => Done(PlayOnce(0, cs))
        case LoopNTimes(_, n) => Done(LoopNTimes(0, n as nat, cs))
        case Stretch(_, n) => Done(Stretch(0, n as nat, cs))
        case InfiniteLoop(_) => Done(InfiniteLoop(0, cs))
        case RandomPlay(_) => Done(RandomPlay(0, SampleAll(d, len), cs))
        case SingleRandom(_) => if len == 0 then Panics(EmptyRange) else Done(SingleRandom(PickBelow(d, len), cs))
        case InfiniteRandom(_) => if len == 0 then Panics(EmptyRange) else Done(InfiniteRandom(PickBelow(d, len), cs)))
  }

  /** `from_song_op`: a fresh tracker moved to the given position. */
  function FromSongOp(op: SongOps.RecursiveSongOp, indices: seq<nat>, d: Dice, v: Variant): Exec<Tracker>
  {
    match From(op, d)
    case Panics(p) => Panics(p)
    case Done(t) => SetCurrent(t, indices, v)
  }
}
