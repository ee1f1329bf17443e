/** Explicit random choices. Each call to the random generator in the sources reads its
    answer from a `Dice` value instead; every answer the generator could give is some `Dice`. */
module Randomness {
  import Collections

  /** The random answers available at one node of a playlist program, with one sub-tree of
      answers per child slot. `pick` answers `gen_range`/`choose`, `order` answers a shuffle (or a
      sequence of picks), `count` is how many rounds of an endless stream are observed. */
  datatype Dice = Dice(pick: nat, order: seq<nat>, count: nat, kids: seq<Dice>)

  const Plain := Dice(0, [], 0, [])

  /** The answers reserved for child slot `k`. */
  function Kid(d: Dice, k: nat): Dice
  {
    if k < |d.kids| then d.kids[k] else Plain
  }

  /** `gen_range(0..len)` and `choose` on a slice of length `len`. */
  function PickBelow(d: Dice, len: nat): (i: nat)
    requires len > 0
    ensures i < len
  {
    d.pick % len
  }

  /** Every index can be picked. */
  lemma EveryIndexCanBePicked(len: nat, i: nat)
    requires i < len
    ensures PickBelow(Dice(i, [], 0, []), len) == i
  {
  }

  /** `shuffle` of `current`: the proposed order when it is a rearrangement of `current`,
      otherwise `current` unchanged (the identity permutation). */
  function Shuffle(proposal: seq<nat>, current: seq<nat>): (r: seq<nat>)
    ensures multiset(r) == multiset(current)
    ensures multiset(proposal) == multiset(current) ==> r == proposal
  {
    if multiset(proposal) == multiset(current) then proposal else current
  }

  /** `sample(len, len)`: a permutation of `0..len`. */
  function SampleAll(d: Dice, len: nat): (r: seq<nat>)
    ensures |r| == len && multiset(r) == multiset(Collections.Range(len))
    ensures forall k :: 0 <= k < |r| ==> r[k] < len
  {
    var r := Shuffle(d.order, Collections.Range(len));
    Collections.RangeMembers(len);
    assert |r| == |multiset(r)|;
    forall k | 0 <= k < |r| ensures r[k] < len { assert r[k] in multiset(r); }
    r
  }
}
