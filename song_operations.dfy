/** Playing a program: the song keys its `into_iter` yields. */
module SongOperations {
  import opened Wrappers
  import opened Collections
  import opened SongOps
  import opened Randomness

  /** How an observed stream of songs ends. `StillPlaying` means the songs are a prefix of an
      endless stream (the observation stopped); `Crashed` means the next step panics. */
  datatype Ending = Exhausted | StillPlaying | Crashed

  datatype Playback = Playback(ids: seq<IDKey>, end: Ending)

  /** Playing `parts` one after the other: a part that does not run to its end stops the
      whole stream there; when all parts run out the stream ends as `last` says. */
  function Chain(parts: seq<Playback>, last: Ending): (p: Playback)
    ensures p.end == Exhausted ==> last == Exhausted
    decreases |parts|
  {
    if |parts| == 0 then Playback([], last)
    else if parts[0].end != Exhausted then parts[0]
    else
      var rest := Chain(parts[1..], last);
      Playback(parts[0].ids + rest.ids, rest.end)
  }

  function IdsOf(parts: seq<Playback>): (r: seq<seq<IDKey>>)
    ensures |r| == |parts| && forall k :: 0 <= k < |parts| ==> r[k] == parts[k].ids
  {
    seq(|parts|, k requires 0 <= k < |parts| => parts[k].ids)
  }

  /** When every part runs to its end, the chain is their concatenation. */
  lemma {:induction false} ChainOfExhausted(parts: seq<Playback>, last: Ending)
    requires forall k :: 0 <= k < |parts| ==> parts[k].end == Exhausted
    ensures Chain(parts, last) == Playback(Flatten(IdsOf(parts)), last)
    decreases |parts|
  {
    if |parts| > 0 {
      ChainOfExhausted(parts[1..], last);
      assert IdsOf(parts[1..]) == IdsOf(parts)[1..];
    }
  }

  /** A chain never goes on for ever unless one of its parts does, or its tail does. */
  lemma {:induction false} ChainStaysFinite(parts: seq<Playback>, last: Ending)
    requires forall k :: 0 <= k < |parts| ==> parts[k].end != StillPlaying
    requires last != StillPlaying
    ensures Chain(parts, last).end != StillPlaying
    decreases |parts|
  {
    if |parts| > 0 && parts[0].end == Exhausted {
      ChainStaysFinite(parts[1..], last);
    }
  }

  /** Chaining two runs of parts, the first of which runs to its end. */
  lemma {:induction false} ChainAppend(a: seq<Playback>, b: seq<Playback>, last: Ending)
    requires forall k :: 0 <= k < |a| ==> a[k].end == Exhausted
    ensures Chain(a + b, last) == Playback(Flatten(IdsOf(a)) + Chain(b, last).ids, Chain(b, last).end)
    decreases |a|
  {
    if |a| == 0 {
      assert a + b == b;
    } else {
      assert (a + b)[1..] == a[1..] + b;
      ChainAppend(a[1..], b, last);
      assert IdsOf(a[1..]) == IdsOf(a)[1..];
    }
  }

  /** `cycle().take(len * n)` over `0..len`: the list of child indices played `n` times. */
  function LoopOrder(len: nat, n: nat): (r: seq<nat>)
    ensures |r| == len * n
  {
    Repeat(Range(len), n)
  }

  /** `flat_map(repeat(op).take(n))` over `0..len`: each child index `n` times in a row. */
  function StretchOrder(len: nat, n: nat): (r: seq<nat>)
    ensures |r| == len * n
  {
    if len == 0 then [] else StretchOrder(len - 1, n) + Repeat<nat>([len - 1], n)
  }

  /** The `k`-th round of a `LoopNTimes` plays child `k % len`. */
  lemma LoopOrderAt(len: nat, n: nat, k: nat)
    requires k < len * n
    ensures LoopOrder(len, n)[k] == k % len
  {
    RepeatAt(Range(len), n, k);
  }

  /** The `k`-th round of a `Stretch` plays child `k / n`. */
  lemma {:induction false} StretchOrderAt(len: nat, n: nat, k: nat)
    requires k < len * n
    ensures StretchOrder(len, n)[k] == k / n
  {
    var before := (len - 1) * n;
    if k < before {
      StretchOrderAt(len - 1, n, k);
    } else {
      assert len * n == before + n;
      RepeatAt<nat>([len - 1], n, k - before);
      DivUnique(k, n, len - 1);
    }
  }

  /** The child indices one play of the group `op` visits, in order, as far as observed. */
  function Schedule(op: RecursiveSongOp, d: Dice): (s: seq<nat>)
    requires !op.SinglePlay?
    ensures forall k :: 0 <= k < |s| ==> s[k] < |op.ops|
  {
    var len := |op.ops|;
    match op
    case PlayOnce(_) => Range(len)
    case LoopNTimes(_, n) =>
      var s := LoopOrder(len, n as nat);
      assert forall k :: 0 <= k < |s| ==> s[k] < len by {
        forall k | 0 <= k < |s| ensures s[k] < len { LoopOrderAt(len, n as nat, k); }
      }
      s
    case Stretch(_, n) =>
      var s := StretchOrder(len, n as nat);
      assert forall k :: 0 <= k < |s| ==> s[k] < len by {
        forall k | 0 <= k < |s| ensures s[k] < len {
          StretchOrderAt(len, n as nat, k);
          DivBelow(k, n as nat, len);
        }
      }
      s
    case InfiniteLoop(_) => if len == 0 then [] else seq(d.count, k requires 0 <= k => k % len)
    case RandomPlay(_) => SampleAll(d, len)
    case SingleRandom(_) => if len == 0 then [] else [PickBelow(d, len)]
    case InfiniteRandom(_) =>
      if len == 0 then [] else seq(|d.order|, k requires 0 <= k < |d.order| => d.order[k] % len)
  }

  /** What the stream does once the schedule is used up. */
  function Tail(op: RecursiveSongOp): Ending
    requires !op.SinglePlay?
  {
    match op
    case InfiniteLoop(ops) => if |ops| == 0 then Exhausted else StillPlaying
    case SingleRandom(ops) => if |ops| == 0 then Crashed else Exhausted   // `choose(..).unwrap()`
    case InfiniteRandom(ops) => if |ops| == 0 then Crashed else StillPlaying
    case _ => Exhausted
  }

  /** The plays of the children along the schedule; each play gets fresh random answers. */
  function Parts(op: RecursiveSongOp, d: Dice): (ps: seq<Playback>)
    requires !op.SinglePlay?
    ensures |ps| == |Schedule(op, d)|
    decreases op, 0
  {
    var s := Schedule(op, d);
    seq(|s|, k requires 0 <= k < |s| => Play(op.ops[s[k]], Kid(d, k)))
  }

  /** `into_iter` of a program, with the random answers `d`. */
  function Play(op: RecursiveSongOp, d: Dice): Playback
    decreases op, 1
  {
    match op
    case SinglePlay(id) => Playback([id], Exhausted)
    case _ => Chain(Parts(op, d), Tail(op))
  }
}

/** Properties of playing a program. */
module SongOperationsProofs {
  import opened Wrappers
  import opened Collections
  import opened SongOps
  import opened Randomness
  import opened SongOperations

  /** The plays of each child in list order, child `k` with the answers of slot `k`. */
  function InOrder(ops: seq<RecursiveSongOp>, d: Dice): (ps: seq<Playback>)
    ensures |ps| == |ops|
  {
    seq(|ops|, k requires 0 <= k < |ops| => Play(ops[k], Kid(d, k)))
  }

  /** `PlayOnce` plays its children one after the other; when all of them end, the result is
      their songs concatenated. */
  lemma PlayOnceConcatenates(ops: seq<RecursiveSongOp>, d: Dice)
    ensures Play(PlayOnce(ops), d) == Chain(InOrder(ops, d), Exhausted)
    ensures (forall k :: 0 <= k < |ops| ==> Play(ops[k], Kid(d, k)).end == Exhausted) ==>
              Play(PlayOnce(ops), d) == Playback(Flatten(IdsOf(InOrder(ops, d))), Exhausted)
  {
    assert Parts(PlayOnce(ops), d) == InOrder(ops, d);
    if forall k :: 0 <= k < |ops| ==> Play(ops[k], Kid(d, k)).end == Exhausted {
      ChainOfExhausted(InOrder(ops, d), Exhausted);
    }
  }

  /** Round `k` of `LoopNTimes(ops, n)` plays child `k % |ops|`, and there are `|ops| * n`
      rounds. */
  lemma LoopNTimesRounds(ops: seq<RecursiveSongOp>, n: u32, d: Dice)
    ensures |Parts(LoopNTimes(ops, n), d)| == |ops| * n as nat
    ensures forall k :: 0 <= k < |ops| * n as nat ==>
              Parts(LoopNTimes(ops, n), d)[k] == Play(ops[k % |ops|], Kid(d, k))
  {
    forall k | 0 <= k < |ops| * n as nat
      ensures Parts(LoopNTimes(ops, n), d)[k] == Play(ops[k % |ops|], Kid(d, k))
    {
      LoopOrderAt(|ops|, n as nat, k);
    }
  }

  /** Round `k` of `Stretch(ops, n)` plays child `k / n`, and there are `|ops| * n` rounds. */
  lemma StretchRounds(ops: seq<RecursiveSongOp>, n: u32, d: Dice)
    ensures |Parts(Stretch(ops, n), d)| == |ops| * n as nat
    ensures forall k :: 0 <= k < |ops| * n as nat ==>
              Parts(Stretch(ops, n), d)[k] == Play(ops[k / n as nat], Kid(d, k))
  {
    forall k | 0 <= k < |ops| * n as nat
      ensures Parts(Stretch(ops, n), d)[k] == Play(ops[k / n as nat], Kid(d, k))
    {
      StretchOrderAt(|ops|, n as nat, k);
    }
  }

  /** Looping zero times, or looping an empty list, plays nothing and ends. */
  lemma EmptyLoopsPlayNothing(ops: seq<RecursiveSongOp>, n: u32, d: Dice)
    requires n == 0 || |ops| == 0
    ensures Play(LoopNTimes(ops, n), d) == Playback([], Exhausted)
    ensures Play(Stretch(ops, n), d) == Playback([], Exhausted)
  {
    assert |ops| * n as nat == 0;
  }

  /** With the same random answers in every round (those `e` gives a single pass),
      `LoopNTimes(ops, n)` plays exactly what `PlayOnce(ops)` plays, `n` times over. */
  lemma {:induction false} LoopNTimesRepeatsPlayOnce(ops: seq<RecursiveSongOp>, n: u32, d: Dice, e: Dice)
    requires forall k :: 0 <= k < |ops| * n as nat ==> Kid(d, k) == Kid(e, k % |ops|)
    requires Play(PlayOnce(ops), e).end == Exhausted
    ensures Play(LoopNTimes(ops, n), d) == Playback(Repeat(Play(PlayOnce(ops), e).ids, n as nat), Exhausted)
    decreases n
  {
    var once := Play(PlayOnce(ops), e);
    if n == 0 || |ops| == 0 {
      EmptyLoopsPlayNothing(ops, n, d);
      if n != 0 {
        assert Parts(PlayOnce(ops), e) == [];
        RepeatOfEmpty(n as nat);
      }
    } else {
      var m := n - 1;
      assert |ops| * n as nat == |ops| * m as nat + |ops|;
      LoopNTimesRepeatsPlayOnce(ops, m, d, e);
      OneMoreLoop(ops, n, d, e);
    }
  }

  /** A run of parts that plays `n - 1` rounds and runs out, followed by one more round
      that runs out, plays `n` rounds. */
  lemma OneMoreRound(prefix: seq<Playback>, round: seq<Playback>, once: Playback, n: nat)
    requires n > 0
    requires Chain(prefix, Exhausted) == Playback(Repeat(once.ids, n - 1), Exhausted)
    requires Chain(round, Exhausted) == once && once.end == Exhausted
    ensures Chain(prefix + round, Exhausted) == Playback(Repeat(once.ids, n), Exhausted)
  {
    AllPartsEnded(prefix, Exhausted);
    ChainOfExhausted(prefix, Exhausted);
    ChainAppend(prefix, round, Exhausted);
  }

  /** `n` loops and one pass each play the chain of their parts, which runs out. */
  lemma FiniteGroupIsChain(ops: seq<RecursiveSongOp>, n: u32, d: Dice, e: Dice)
    ensures Play(LoopNTimes(ops, n), d) == Chain(Parts(LoopNTimes(ops, n), d), Exhausted)
    ensures Play(PlayOnce(ops), e) == Chain(Parts(PlayOnce(ops), e), Exhausted)
  {
  }

  /** The inductive step: `n` loops are `n - 1` loops and one more pass, which ends. */
  lemma OneMoreLoop(ops: seq<RecursiveSongOp>, n: u32, d: Dice, e: Dice)
    requires n > 0 && |ops| > 0
    requires forall k :: 0 <= k < |ops| * n as nat ==> Kid(d, k) == Kid(e, k % |ops|)
    requires Play(PlayOnce(ops), e).end == Exhausted
    requires Play(LoopNTimes(ops, n - 1), d) == Playback(Repeat(Play(PlayOnce(ops), e).ids, (n - 1) as nat), Exhausted)
    ensures Play(LoopNTimes(ops, n), d) == Playback(Repeat(Play(PlayOnce(ops), e).ids, n as nat), Exhausted)
  {
    LoopPartsSplit(ops, n, d, e);
    FiniteGroupIsChain(ops, n - 1, d, e);
    OneMoreRound(Parts(LoopNTimes(ops, n - 1), d), Parts(PlayOnce(ops), e), Play(PlayOnce(ops), e), n as nat);
  }

  /** Under answers that repeat every round, the rounds of `n` loops are those of `n - 1`
      loops and one more pass over the list. */
  lemma LoopPartsSplit(ops: seq<RecursiveSongOp>, n: u32, d: Dice, e: Dice)
    requires n > 0 && |ops| > 0
    requires forall k :: 0 <= k < |ops| * n as nat ==> Kid(d, k) == Kid(e, k % |ops|)
    ensures Parts(LoopNTimes(ops, n), d) == Parts(LoopNTimes(ops, n - 1), d) + Parts(PlayOnce(ops), e)
  {
    var prefix := Parts(LoopNTimes(ops, n - 1), d);
    var whole := Parts(LoopNTimes(ops, n), d);
    var round := Parts(PlayOnce(ops), e);
    LoopPrefixAgrees(ops, n, d);
    assert |round| == |ops|;
    forall j | 0 <= j < |round| ensures whole[|prefix| + j] == round[j] {
      LastRound(ops, n, d, e, |prefix| + j);
    }
    SplitAt(whole, prefix, round);
  }

  /** The rounds of `n - 1` loops begin the rounds of `n` loops, which have one pass more. */
  lemma LoopPrefixAgrees(ops: seq<RecursiveSongOp>, n: u32, d: Dice)
    requires n > 0 && |ops| > 0
    ensures |Parts(LoopNTimes(ops, n), d)| == |Parts(LoopNTimes(ops, n - 1), d)| + |ops|
    ensures forall k :: 0 <= k < |Parts(LoopNTimes(ops, n - 1), d)| ==>
              Parts(LoopNTimes(ops, n), d)[k] == Parts(LoopNTimes(ops, n - 1), d)[k]
  {
    var len := |ops|;
    var before := LoopOrder(len, (n - 1) as nat);
    assert LoopOrder(len, n as nat) == before + Range(len);
    assert Schedule(LoopNTimes(ops, n), d) == Schedule(LoopNTimes(ops, n - 1), d) + Range(len);
    forall k | 0 <= k < |Parts(LoopNTimes(ops, n - 1), d)|
      ensures Parts(LoopNTimes(ops, n), d)[k] == Parts(LoopNTimes(ops, n - 1), d)[k]
    {
      assert Schedule(LoopNTimes(ops, n), d)[k] == Schedule(LoopNTimes(ops, n - 1), d)[k];
    }
  }

  lemma SplitAt<T>(whole: seq<T>, prefix: seq<T>, rest: seq<T>)
    requires |whole| == |prefix| + |rest|
    requires forall k :: 0 <= k < |prefix| ==> whole[k] == prefix[k]
    requires forall j :: 0 <= j < |rest| ==> whole[|prefix| + j] == rest[j]
    ensures whole == prefix + rest
  {
    forall k | 0 <= k < |whole| ensures whole[k] == (prefix + rest)[k] {
      if k >= |prefix| {
        assert whole[|prefix| + (k - |prefix|)] == rest[k - |prefix|];
      }
    }
  }

  lemma LastRound(ops: seq<RecursiveSongOp>, n: u32, d: Dice, e: Dice, k: nat)
    requires n > 0 && |ops| > 0
    requires forall k :: 0 <= k < |ops| * n as nat ==> Kid(d, k) == Kid(e, k % |ops|)
    requires |ops| * (n - 1) as nat <= k < |ops| * n as nat
    ensures Parts(LoopNTimes(ops, n), d)[k] == Parts(PlayOnce(ops), e)[k - |ops| * (n - 1) as nat]
  {
    var len := |ops|;
    var j := k - len * (n - 1) as nat;
    assert len * n as nat == len * (n - 1) as nat + len;
    ModUnique(k, len, (n - 1) as nat);
    assert k % len == j;
    LoopNTimesRounds(ops, n, d);
    assert Parts(LoopNTimes(ops, n), d)[k] == Play(ops[j], Kid(d, k));
  }

  /** If a chain runs to its end, so did every part in it. */
  lemma AllPartsEnded(parts: seq<Playback>, last: Ending)
    requires Chain(parts, last).end == Exhausted
    ensures forall k :: 0 <= k < |parts| ==> parts[k].end == Exhausted
  {
    forall k | 0 <= k < |parts| ensures parts[k].end == Exhausted {
      ChainStopsAtFirst(parts, last, k);
    }
  }

  lemma {:induction false} RepeatOfEmpty(n: nat)
    ensures Repeat<IDKey>([], n) == []
  {
    if n > 0 { RepeatOfEmpty(n - 1); }
  }

  /** If a chain runs to its end, so did every part in it. */
  lemma {:induction false} ChainStopsAtFirst(parts: seq<Playback>, last: Ending, k: nat)
    requires k < |parts|
    requires Chain(parts, last).end == Exhausted
    ensures parts[k].end == Exhausted
    decreases k
  {
    if k > 0 && parts[0].end == Exhausted {
      ChainStopsAtFirst(parts[1..], last, k - 1);
    }
  }

  /** `RandomPlay` plays every child exactly once, in a shuffled order; every order can occur. */
  lemma RandomPlayPlaysEachChildOnce(ops: seq<RecursiveSongOp>, d: Dice)
    ensures |Schedule(RandomPlay(ops), d)| == |ops|
    ensures forall i: nat :: i < |ops| ==> multiset(Schedule(RandomPlay(ops), d))[i] == 1
    ensures forall p: seq<nat> :: multiset(p) == multiset(Range(|ops|)) ==>
              Schedule(RandomPlay(ops), Dice(0, p, 0, [])) == p
  {
    var s: seq<nat> := Schedule(RandomPlay(ops), d);
    var m: multiset<nat> := multiset(s);
    forall i: nat | i < |ops| ensures m[i] == 1 {
      RangeCountsOnce(|ops|, i);
    }
  }

  lemma {:induction false} RangeCountsOnce(n: nat, i: nat)
    requires i < n
    ensures multiset(Range(n))[i] == 1
  {
    if i < n - 1 {
      RangeCountsOnce(n - 1, i);
    }
    assert Range(n) == Range(n - 1) + [n - 1];
  }

  /** `SingleRandom` plays one child, picked at random; with no children
      `choose(..).unwrap()` panics. */
  lemma SingleRandomPlaysOneChild(ops: seq<RecursiveSongOp>, d: Dice)
    ensures |ops| == 0 ==> Play(SingleRandom(ops), d) == Playback([], Crashed)
    ensures |ops| > 0 ==> exists i :: 0 <= i < |ops| && Play(SingleRandom(ops), d) == Play(ops[i], Kid(d, 0))
  {
    if |ops| > 0 {
      var i := PickBelow(d, |ops|);
      assert Parts(SingleRandom(ops), d) == [Play(ops[i], Kid(d, 0))];
      ChainOfOne(Play(ops[i], Kid(d, 0)));
    }
  }

  lemma ChainOfOne(p: Playback)
    ensures Chain([p], Exhausted) == p
  {
    assert [p][1..] == [];
    assert p.ids + [] == p.ids;
  }

  /** Any child of a `SingleRandom` can be the one played. */
  lemma SingleRandomCanPickAny(ops: seq<RecursiveSongOp>, i: nat, e: Dice)
    requires i < |ops|
    ensures Play(SingleRandom(ops), Dice(i, [], 0, [e])) == Play(ops[i], e)
  {
    assert Parts(SingleRandom(ops), Dice(i, [], 0, [e])) == [Play(ops[i], e)];
    ChainOfOne(Play(ops[i], e));
  }

  /** A program whose loop type is `Never` is never an endless stream. */
  lemma {:induction false} NeverMeansFinite(op: RecursiveSongOp, d: Dice)
    requires LoopType(op) == Never
    ensures Play(op, d).end != StillPlaying
    decreases op
  {
    if !op.SinglePlay? {
      var types := ChildLoopTypes(op);
      assert forall i :: 0 <= i < |op.ops| ==> LoopType(op.ops[i]) == types[i];
      var s := Schedule(op, d);
      var ps := Parts(op, d);
      forall k | 0 <= k < |ps| ensures ps[k].end != StillPlaying {
        NeverMeansFinite(op.ops[s[k]], Kid(d, k));
      }
      ChainStaysFinite(ps, Tail(op));
    }
  }

  /** A non-empty `InfiniteLoop` or `InfiniteRandom` never runs out: however many rounds are
      observed, the stream either goes on or panics. */
  lemma EndlessGroupsNeverRunOut(op: RecursiveSongOp, d: Dice)
    requires op.InfiniteLoop? || op.InfiniteRandom?
    requires |op.ops| > 0
    ensures Play(op, d).end != Exhausted
  {
  }

  /** `loop_type` says `Always` of an empty `InfiniteLoop`, but `cycle` over an empty list
      yields nothing and ends. */
  lemma EmptyInfiniteLoopEnds(d: Dice)
    ensures LoopType(InfiniteLoop([])) == Always
    ensures Play(InfiniteLoop([]), d) == Playback([], Exhausted)
  {
  }

  /** `RandomPlay` plays as `PlayOnce` does over a rearrangement of its children: the children
      along its shuffled schedule, each exactly once. */
  lemma RandomPlayIsAReordering(ops: seq<RecursiveSongOp>, d: Dice)
    ensures var s := Schedule(RandomPlay(ops), d);
            Below(s, |ops|) && multiset(Gather(ops, s)) == multiset(ops) &&
            Play(RandomPlay(ops), d) == Play(PlayOnce(Gather(ops, s)), d)
  {
    var s := Schedule(RandomPlay(ops), d);
    GatherPermutation(ops, s);
    var g := Gather(ops, s);
    var a, b := Parts(RandomPlay(ops), d), Parts(PlayOnce(g), d);
    forall k | 0 <= k < |ops| ensures a[k] == b[k] {
      GatherAt(ops, s, k);
    }
    assert a == b;
  }
}
