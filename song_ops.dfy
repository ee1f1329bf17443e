/** The recursive song-operation algebra: a playlist program built from songs and groups. */
module SongOps {
  import opened Wrappers

  /** A song's key. */
  type IDKey = string

  /** How infinite a playlist program can be. Declared in increasing order. */
  datatype InfLoopType = Never | Maybe | Always

  /** A playlist program. Every group holds its child programs in `ops`. */
  datatype RecursiveSongOp =
    | SinglePlay(id: IDKey)                       // plays one song
    | PlayOnce(ops: seq<RecursiveSongOp>)          // plays the children in order once
    | LoopNTimes(ops: seq<RecursiveSongOp>, n: u32) // plays the whole list `n` times
    | Stretch(ops: seq<RecursiveSongOp>, n: u32)    // plays each child `n` times in a row
    | InfiniteLoop(ops: seq<RecursiveSongOp>)      // plays the list over and over
    | RandomPlay(ops: seq<RecursiveSongOp>)        // plays the children once each, shuffled
    | SingleRandom(ops: seq<RecursiveSongOp>)      // plays one child chosen at random
    | InfiniteRandom(ops: seq<RecursiveSongOp>)    // plays random children for ever

  /** `is_valid`: every group is valid when all of its children are. */
  predicate IsValid(op: RecursiveSongOp)
  {
    match op
    case SinglePlay(_) => true
    case _ => forall i | 0 <= i < |op.ops| :: IsValid(op.ops[i])
  }

  /** No program is ever rejected: `is_valid` has no case returning false. */
  lemma {:induction false} EveryOpIsValid(op: RecursiveSongOp)
    ensures IsValid(op)
  {
    if !op.SinglePlay? {
      forall i | 0 <= i < |op.ops| ensures IsValid(op.ops[i]) {
        EveryOpIsValid(op.ops[i]);
      }
    }
  }

  /** `find_map` over the children's loop types: the first one that is not `Never`. */
  function FirstNotNever(types: seq<InfLoopType>): (r: InfLoopType)
    ensures r == Never <==> forall i :: 0 <= i < |types| ==> types[i] == Never
    ensures r != Never ==> exists i :: 0 <= i < |types| && types[i] == r &&
                                      forall j :: 0 <= j < i ==> types[j] == Never
    decreases |types|
  {
    if |types| == 0 then Never
    else if types[0] != Never then types[0]
    else
      var rest := FirstNotNever(types[1..]);
      assert forall i :: 1 <= i < |types| ==> types[i] == types[1..][i - 1];
      rest
  }

  function ChildLoopTypes(op: RecursiveSongOp): (r: seq<InfLoopType>)
    requires !op.SinglePlay?
    ensures |r| == |op.ops|
    decreases op, 0
  {
    seq(|op.ops|, i requires 0 <= i < |op.ops| => LoopType(op.ops[i]))
  }

  /** `loop_type`: whether playing the program can go on for ever. */
  function LoopType(op: RecursiveSongOp): InfLoopType
    decreases op, 1
  {
    match op
    case InfiniteLoop(_) => Always
    case InfiniteRandom(_) => Always
    case SinglePlay(_) => Never
    case SingleRandom(_) =>
      var types := ChildLoopTypes(op);
      if exists i | 0 <= i < |types| :: types[i] != Never then Maybe else Never
    case _ => FirstNotNever(ChildLoopTypes(op))
  }

  /** A program is finite (`Never`) exactly when it holds no `InfiniteLoop` or `InfiniteRandom`
      anywhere. */
  predicate HasInfiniteGroup(op: RecursiveSongOp)
  {
    match op
    case SinglePlay(_) => false
    case InfiniteLoop(_) => true
    case InfiniteRandom(_) => true
    case _ => exists i | 0 <= i < |op.ops| :: HasInfiniteGroup(op.ops[i])
  }

  lemma {:induction false} NeverIffNoInfiniteGroup(op: RecursiveSongOp)
    ensures LoopType(op) == Never <==> !HasInfiniteGroup(op)
  {
    match op
    case SinglePlay(_) =>
    case InfiniteLoop(_) =>
    case InfiniteRandom(_) =>
    case _ =>
      forall i | 0 <= i < |op.ops| ensures LoopType(op.ops[i]) == Never <==> !HasInfiniteGroup(op.ops[i]) {
        NeverIffNoInfiniteGroup(op.ops[i]);
      }
      var types := ChildLoopTypes(op);
      assert forall i :: 0 <= i < |types| ==> types[i] == LoopType(op.ops[i]);
  }

  /** `Maybe` is only ever produced by a `SingleRandom` somewhere in the program. */
  predicate HasSingleRandom(op: RecursiveSongOp)
  {
    match op
    case SinglePlay(_) => false
    case SingleRandom(_) => true
    case _ => exists i | 0 <= i < |op.ops| :: HasSingleRandom(op.ops[i])
  }

  lemma {:induction false} MaybeNeedsSingleRandom(op: RecursiveSongOp)
    ensures LoopType(op) == Maybe ==> HasSingleRandom(op)
  {
    match op
    case SinglePlay(_) =>
    case InfiniteLoop(_) =>
    case InfiniteRandom(_) =>
    case SingleRandom(_) =>
    case _ =>
      var types := ChildLoopTypes(op);
      if LoopType(op) == Maybe {
        var i :| 0 <= i < |types| && types[i] == Maybe;
        MaybeNeedsSingleRandom(op.ops[i]);
      }
  }
  /** `loop_type` case by case: the endless kinds are `Always` and a song `Never` whatever
      they hold; the four sequential kinds take the first child type that is not `Never`,
      and `Never` when there is none; `SingleRandom` is `Maybe` when some child is not
      `Never`, otherwise `Never`, and so never `Always`. */
  lemma LoopTypeCases(ops: seq<RecursiveSongOp>, n: u32, id: IDKey)
    ensures LoopType(InfiniteLoop(ops)) == Always && LoopType(InfiniteRandom(ops)) == Always
    ensures LoopType(SinglePlay(id)) == Never
    ensures LoopType(LoopNTimes(ops, n)) == LoopType(PlayOnce(ops)) &&
            LoopType(Stretch(ops, n)) == LoopType(PlayOnce(ops)) &&
            LoopType(RandomPlay(ops)) == LoopType(PlayOnce(ops))
    ensures LoopType(PlayOnce(ops)) == Never <==> forall i :: 0 <= i < |ops| ==> LoopType(ops[i]) == Never
    ensures LoopType(PlayOnce(ops)) != Never ==>
              exists i :: 0 <= i < |ops| && LoopType(ops[i]) == LoopType(PlayOnce(ops)) &&
                          forall j :: 0 <= j < i ==> LoopType(ops[j]) == Never
    ensures LoopType(SingleRandom(ops)) != Always
    ensures LoopType(SingleRandom(ops)) == Maybe <==> exists i :: 0 <= i < |ops| && LoopType(ops[i]) != Never
  {
    var types := ChildLoopTypes(PlayOnce(ops));
    assert forall i :: 0 <= i < |ops| ==> types[i] == LoopType(ops[i]);
    assert ChildLoopTypes(LoopNTimes(ops, n)) == types;
    assert ChildLoopTypes(Stretch(ops, n)) == types;
    assert ChildLoopTypes(RandomPlay(ops)) == types;
    assert ChildLoopTypes(SingleRandom(ops)) == types;
  }

  /** The first child that is not `Never` decides, even when a later one is `Always`. */
  lemma FirstChildDecides()
    ensures LoopType(PlayOnce([SingleRandom([InfiniteLoop([])]), InfiniteLoop([])])) == Maybe
  {
    var inner := SingleRandom([InfiniteLoop([])]);
    assert ChildLoopTypes(inner)[0] == Always;
    assert ChildLoopTypes(PlayOnce([inner, InfiniteLoop([])])) == [Maybe, Always];
  }
}
