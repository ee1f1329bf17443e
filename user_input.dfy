/** Which rows of a list are selected, and how a click with Shift or Ctrl held changes that. */
module UserInput {
  import Wrappers
  import opened Collections

  /** `SelectionMode`. A `Range` stands for the inclusive range `lo..=hi`, `first` for the
      row it is anchored at. */
  datatype SelectionMode =
    | None
    | Single(idx: nat)
    | Multiple(v: seq<nat>)
    | Range(first: nat, lo: nat, hi: nat)

  /** The keyboard modifiers held during a click. */
  datatype Modifiers = Modifiers(shift: bool, control: bool)

  /** `RangeInclusive::into_iter().collect()`: `lo`, `lo + 1`, ..., `hi`; empty when
      `lo > hi`. */
  function Inclusive(lo: nat, hi: nat): (r: seq<nat>)
    ensures |r| == if lo <= hi then hi - lo + 1 else 0
    ensures forall i :: 0 <= i < |r| ==> r[i] == lo + i
  {
    if lo > hi then [] else seq(hi - lo + 1, i requires 0 <= i < hi - lo + 1 => lo + i)
  }

  /** `contains`. */
  predicate Contains(s: SelectionMode, idx: nat)
  {
    match s
    case None => false
    case Single(i) => i == idx
    case Multiple(v) => idx in v
    case Range(_, lo, hi) => lo <= idx <= hi
  }

  /** What the Ctrl branches do to their list: the first `x` is removed, or `x` is appended
      when absent. */
  function Toggled(v: seq<nat>, x: nat): seq<nat>
  {
    var k := IndexOf(v, x);
    if k < |v| then v[..k] + v[k + 1..] else v + [x]
  }

  /** A Shift-click anchored at `anchor`: the same row gives `Single`, another the range
      between the two, anchored where it was. */
  function ShiftFrom(anchor: nat, clicked: nat): SelectionMode
  {
    if clicked == anchor then Single(clicked)
    else if anchor < clicked then Range(anchor, anchor, clicked)
    else Range(anchor, clicked, anchor)
  }

  /** `update_selection`: Shift wins over Ctrl; a plain click selects the clicked row. A
      Shift-click on an empty `Multiple` panics in `v.last().unwrap()`. */
  function Updated(s: SelectionMode, clicked: nat, mods: Modifiers): Wrappers.Exec<SelectionMode>
  {
    if mods.shift then
      match s
      case None => Wrappers.Done(Single(clicked))
      case Single(i) => Wrappers.Done(if clicked == i then None else ShiftFrom(i, clicked))
      case Multiple(v) =>
        if |v| == 0 then Wrappers.Panics(Wrappers.UnwrapNone)
        else Wrappers.Done(ShiftFrom(v[|v| - 1], clicked))
      case Range(first, _, _) => Wrappers.Done(ShiftFrom(first, clicked))
    else if mods.control then
      match s
      case None => Wrappers.Done(Multiple([clicked]))
      case Single(i) => Wrappers.Done(Multiple([i, clicked]))
      case Multiple(v) => Wrappers.Done(Multiple(Toggled(v, clicked)))
      case Range(_, lo, hi) => Wrappers.Done(Multiple(Toggled(Inclusive(lo, hi), clicked)))
    else Wrappers.Done(Single(clicked))
  }

  /** The Ctrl branches' edit of their local `Vec`: `position` finds the first `x`, then
      `remove` takes it out or `push` appends. */
  method Toggle(v: seq<nat>, x: nat) returns (w: seq<nat>)
    ensures w == Toggled(v, x)
  {
    var i := 0;
    while i < |v| && v[i] != x
      invariant 0 <= i <= |v|
      invariant forall j :: 0 <= j < i ==> v[j] != x
    {
      i := i + 1;
    }
    if i < |v| {
      w := v[..i] + v[i + 1..];
    } else {
      w := v + [x];
    }
  }

  /** `update_selection`, with the Ctrl branches editing their list in place. */
  method UpdateSelection(s: SelectionMode, clicked: nat, mods: Modifiers) returns (r: Wrappers.Exec<SelectionMode>)
    ensures r == Updated(s, clicked, mods)
  {
    if mods.shift || !mods.control {
      return Updated(s, clicked, mods);
    }
    match s
    case None => r := Wrappers.Done(Multiple([clicked]));
    case Single(i) => r := Wrappers.Done(Multiple([i, clicked]));
    case Multiple(v) =>
      var w := Toggle(v, clicked);
      r := Wrappers.Done(Multiple(w));
    case Range(_, lo, hi) =>
      var w := Toggle(Inclusive(lo, hi), clicked);
      r := Wrappers.Done(Multiple(w));
  }

  /** A click without Shift or Ctrl selects exactly the clicked row. */
  lemma PlainClickSelectsOne(s: SelectionMode, clicked: nat, ctrl: bool, y: nat)
    ensures Updated(s, clicked, Modifiers(false, false)) == Wrappers.Done(Single(clicked))
    ensures Contains(Updated(s, clicked, Modifiers(false, false)).value, y) <==> y == clicked
    ensures Updated(s, clicked, Modifiers(true, ctrl)) == Updated(s, clicked, Modifiers(true, false))
  {
  }

  /** The row a Shift-click is anchored at: the single row, the last row picked with Ctrl,
      or the range's anchor. */
  function Anchor(s: SelectionMode): Wrappers.Option<nat>
  {
    match s
    case None => Wrappers.None
    case Single(i) => Wrappers.Some(i)
    case Multiple(v) => if |v| == 0 then Wrappers.None else Wrappers.Some(v[|v| - 1])
    case Range(first, _, _) => Wrappers.Some(first)
  }

  /** A Shift-click makes a range exactly when there is an anchor other than the clicked
      row; the range selects exactly the rows from the anchor to the clicked row, both
      included, and stays anchored. With no selection it selects the clicked row alone; on
      the anchor itself it selects that row alone, or nothing when it repeats a single
      selection. */
  lemma {:induction false} ShiftSelectsSpan(s: SelectionMode, clicked: nat, ctrl: bool, y: nat)
    requires Updated(s, clicked, Modifiers(true, ctrl)).Done?
    ensures Anchor(s).Some? || s.None?
    ensures var r := Updated(s, clicked, Modifiers(true, ctrl)).value;
            (r.Range? ==> Anchor(s).Some? && r.first == Anchor(s).value && Anchor(s).value != clicked &&
                          Contains(r, r.first) && Contains(r, clicked) &&
                          (Contains(r, y) <==> (r.first <= y <= clicked || clicked <= y <= r.first))) &&
            (r.Single? ==> r.idx == clicked) &&
            (r.None? ==> s == Single(clicked))
    ensures var r := Updated(s, clicked, Modifiers(true, ctrl)).value;
            (r.Range? <==> Anchor(s).Some? && Anchor(s).value != clicked) &&
            (s.None? ==> r == Single(clicked)) &&
            (Anchor(s) == Wrappers.Some(clicked) ==> r == if s.Single? then None else Single(clicked))
  {
  }

  /** Only an empty Ctrl list makes a Shift-click panic. */
  lemma ShiftPanicsOnlyOnEmptyList(s: SelectionMode, clicked: nat, ctrl: bool)
    ensures Updated(s, clicked, Modifiers(true, ctrl)).Panics? <==> s == Multiple([])
  {
  }

  /** Toggling leaves every other row as selected as it was. */
  lemma {:induction false} ToggledKeepsOthers(v: seq<nat>, x: nat, y: nat)
    requires y != x
    ensures y in Toggled(v, x) <==> y in v
  {
    var k := IndexOf(v, x);
    if k < |v| {
      assert v == v[..k] + [v[k]] + v[k + 1..];
    }
  }

  /** Toggling a row listed at most once flips whether it is selected. */
  lemma {:induction false} ToggledFlips(v: seq<nat>, x: nat)
    requires NoDuplicates(v)
    ensures x in Toggled(v, x) <==> x !in v
  {
    var k := IndexOf(v, x);
    if k < |v| {
      assert v == v[..k] + [x] + v[k + 1..];
    }
  }

  /** Toggling a row in and back out gives the list back. */
  lemma ToggledTwice(v: seq<nat>, x: nat)
    requires x !in v
    ensures Toggled(Toggled(v, x), x) == v
  {
    assert IndexOf(v + [x], x) == |v|;
    assert (v + [x])[..|v|] == v;
  }

  /** Toggling keeps a list free of duplicates. */
  lemma ToggledNoDuplicates(v: seq<nat>, x: nat)
    requires NoDuplicates(v)
    ensures NoDuplicates(Toggled(v, x))
  {
    var k := IndexOf(v, x);
    var w := Toggled(v, x);
    if k < |v| {
      forall i, j | 0 <= i < j < |w| ensures w[i] != w[j] {
        var i' := if i < k then i else i + 1;
        var j' := if j < k then j else j + 1;
        assert w[i] == v[i'] && w[j] == v[j'];
      }
    }
  }

  /** A Ctrl-click leaves every other row as selected as it was, and flips the clicked row,
      unless it was already listed twice, or is the single selected row: then it ends up
      listed twice. */
  lemma CtrlClickToggles(s: SelectionMode, clicked: nat, y: nat)
    ensures Updated(s, clicked, Modifiers(false, true)).Done?
    ensures var r := Updated(s, clicked, Modifiers(false, true)).value;
            r.Multiple? &&
            (y != clicked ==> (Contains(r, y) <==> Contains(s, y))) &&
            (s != Single(clicked) && (s.Multiple? ==> NoDuplicates(s.v)) ==>
               (Contains(r, clicked) <==> !Contains(s, clicked)))
    ensures Updated(Single(clicked), clicked, Modifiers(false, true)) == Wrappers.Done(Multiple([clicked, clicked]))
  {
    match s
    case None =>
    case Single(_) =>
    case Multiple(v) =>
      if y != clicked { ToggledKeepsOthers(v, clicked, y); }
      if NoDuplicates(v) { ToggledFlips(v, clicked); }
    case Range(_, lo, hi) =>
      var v := Inclusive(lo, hi);
      assert forall z :: z in v <==> lo <= z <= hi by {
        forall z ensures z in v <==> lo <= z <= hi {
          if lo <= z <= hi { assert v[z - lo] == z; }
        }
      }
      assert NoDuplicates(v);
      if y != clicked { ToggledKeepsOthers(v, clicked, y); }
      ToggledFlips(v, clicked);
  }
}
