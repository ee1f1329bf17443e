/** Newline-delimited JSON files as the caches read and rewrite them: the lines, what each
    parses to, and the shape of a rewritten file. */
module NdjsonLines {
  import opened Wrappers
  import opened Collections

  /** An item with an id (`IDed`), together with its JSON text. Writing an item writes
      `json`; reading that line back gives the item again. */
  datatype Record = Record(id: string, json: string)

  /** One line of a file: its text and what `serde_json` makes of it, or the I/O error that
      `lines()` reports in its place. Line texts carry no newline. */
  datatype FileLine = Line(text: string, parsed: Option<Record>) | IoError

  /** A file's lines, or `None` when it cannot be opened. */
  type File = Option<seq<FileLine>>

  /** `LineItemPair` / `LineSongPair`: a line and the item it parsed to. */
  datatype LinePair = LinePair(line: string, item: Record)

  /** `lines().map_while(Result::ok).filter_map(parse)`: reading stops at the first I/O
      error and skips the lines that do not parse. */
  function ReadSkipping(lines: seq<FileLine>): seq<LinePair>
  {
    if |lines| == 0 then []
    else match lines[0]
      case IoError => []
      case Line(t, p) => (if p.Some? then [LinePair(t, p.value)] else []) + ReadSkipping(lines[1..])
  }

  /** Nothing after the first I/O error is read. */
  lemma {:induction false} ReadSkippingStopsAtError(a: seq<FileLine>, b: seq<FileLine>)
    requires IoError !in a
    ensures ReadSkipping(a + [IoError] + b) == ReadSkipping(a)
  {
    if |a| > 0 {
      assert (a + [IoError] + b)[1..] == a[1..] + [IoError] + b;
      ReadSkippingStopsAtError(a[1..], b);
    } else {
      assert (a + [IoError] + b)[0] == IoError;
    }
  }

  /** Before an I/O error, reading follows the file line by line. */
  lemma {:induction false} ReadSkippingAppend(a: seq<FileLine>, b: seq<FileLine>)
    requires IoError !in a
    ensures ReadSkipping(a + b) == ReadSkipping(a) + ReadSkipping(b)
  {
    if |a| == 0 {
      assert a + b == b;
    } else {
      assert (a + b)[0] == a[0] && (a + b)[1..] == a[1..] + b;
      ReadSkippingAppend(a[1..], b);
    }
  }

  /** The lines that write out a list of pairs again. */
  function LinesOf(pairs: seq<LinePair>): (r: seq<FileLine>)
    ensures |r| == |pairs| && IoError !in r
  {
    seq(|pairs|, i requires 0 <= i < |pairs| => Line(pairs[i].line, Some(pairs[i].item)))
  }

  /** A file every line of which parsed. */
  predicate AllParsed(lines: seq<FileLine>)
  {
    forall j :: 0 <= j < |lines| ==> lines[j].Line? && lines[j].parsed.Some?
  }

  /** Writing back what was read from a file whose every line parsed gives the file. */
  lemma {:induction false} ReadAllParsed(lines: seq<FileLine>)
    requires AllParsed(lines)
    ensures LinesOf(ReadSkipping(lines)) == lines
  {
    if |lines| > 0 {
      ReadAllParsed(lines[1..]);
      var r := ReadSkipping(lines);
      assert r == [LinePair(lines[0].text, lines[0].parsed.value)] + ReadSkipping(lines[1..]);
      assert LinesOf(r)[1..] == LinesOf(ReadSkipping(lines[1..]));
      assert lines == [lines[0]] + lines[1..];
    }
  }

  /** Reading back lines that were read gives the same pairs. */
  lemma {:induction false} ReadBackLines(pairs: seq<LinePair>)
    ensures ReadSkipping(LinesOf(pairs)) == pairs
  {
    if |pairs| > 0 {
      assert LinesOf(pairs)[1..] == LinesOf(pairs[1..]);
      ReadBackLines(pairs[1..]);
    }
  }

  /** The ids of a list of pairs. */
  function IdsOf(pairs: seq<LinePair>): set<string>
  {
    set i | 0 <= i < |pairs| :: pairs[i].item.id
  }

  lemma IdsOfAppend(pairs: seq<LinePair>, p: LinePair)
    ensures IdsOf(pairs + [p]) == IdsOf(pairs) + {p.item.id}
  {
    var q := pairs + [p];
    forall x | x in IdsOf(q) ensures x in IdsOf(pairs) + {p.item.id} {
      var i :| 0 <= i < |q| && q[i].item.id == x;
      if i < |pairs| { assert pairs[i] == q[i]; }
    }
    forall x | x in IdsOf(pairs) ensures x in IdsOf(q) {
      var i :| 0 <= i < |pairs| && pairs[i].item.id == x;
      assert q[i] == pairs[i];
    }
    assert q[|pairs|] == p;
  }

  /** No two pairs share an id. */
  predicate UniqueIds(pairs: seq<LinePair>)
  {
    forall i, j :: 0 <= i < j < |pairs| ==> pairs[i].item.id != pairs[j].item.id
  }

  /** The pairs whose id is not among `keys`, in order. */
  function WithoutIds(pairs: seq<LinePair>, keys: set<string>): seq<LinePair>
  {
    if |pairs| == 0 then []
    else WithoutIds(pairs[..|pairs| - 1], keys) +
         (if pairs[|pairs| - 1].item.id in keys then [] else [pairs[|pairs| - 1]])
  }

  /** `WithoutIds` keeps exactly the pairs with other ids. */
  lemma {:induction false} WithoutIdsMembers(pairs: seq<LinePair>, keys: set<string>)
    ensures forall p :: p in WithoutIds(pairs, keys) <==> p in pairs && p.item.id !in keys
  {
    if |pairs| > 0 {
      var init := pairs[..|pairs| - 1];
      WithoutIdsMembers(init, keys);
      assert pairs == init + [pairs[|pairs| - 1]];
    }
  }

  /** Collecting items into a `HashMap` by id (`to_hash_map`, `collect`): the last item
      with an id wins. */
  function Pending(items: seq<Record>): map<string, Record>
  {
    ToMap(seq(|items|, i requires 0 <= i < |items| => (items[i].id, items[i])))
  }

  /** `collect::<HashMap<_, _>>()` over `(id, item)`: each item inserted in turn. */
  method CollectById(items: seq<Record>) returns (m: map<string, Record>)
    ensures m == Pending(items)
  {
    m := map[];
    var i := 0;
    while i < |items|
      invariant 0 <= i <= |items|
      invariant m == Pending(items[..i])
    {
      ghost var pairs := seq(i + 1, j requires 0 <= j < i + 1 => (items[..i + 1][j].id, items[..i + 1][j]));
      assert pairs[..i] == seq(i, j requires 0 <= j < i => (items[..i][j].id, items[..i][j]));
      m := m[items[i].id := items[i]];
      i := i + 1;
    }
    assert items[..i] == items;
  }

  /** Every map of items keyed by their ids. */
  predicate KeyedById(m: map<string, Record>)
  {
    forall k :: k in m ==> m[k].id == k
  }

  /** The pending map holds every id of the items, each with its last item. */
  lemma PendingLastWins(items: seq<Record>)
    ensures Pending(items).Keys == set i | 0 <= i < |items| :: items[i].id
    ensures KeyedById(Pending(items))
    ensures forall i :: 0 <= i < |items| && (forall j :: i < j < |items| ==> items[j].id != items[i].id) ==>
              Pending(items)[items[i].id] == items[i]
  {
    var pairs := seq(|items|, i requires 0 <= i < |items| => (items[i].id, items[i]));
    ToMapLastWins(pairs);
    assert forall i :: 0 <= i < |items| ==> pairs[i] == (items[i].id, items[i]);
    forall k | k in Pending(items) ensures Pending(items)[k].id == k {
      var i :| 0 <= i < |pairs| && pairs[i].0 == k;
      var last := LastWithKey(pairs, i);
      assert Pending(items)[k] == pairs[last].1;
    }
  }

  /** A single item is pending under its id. */
  lemma PendingOne(r: Record)
    ensures Pending([r]) == map[r.id := r]
  {
    PendingLastWins([r]);
    assert (set i | 0 <= i < |[r]| :: [r][i].id) == {r.id};
  }

  lemma {:induction false} LastWithKey<V>(pairs: seq<(string, V)>, i: nat) returns (last: nat)
    requires i < |pairs|
    ensures i <= last < |pairs| && pairs[last].0 == pairs[i].0
    ensures forall j :: last < j < |pairs| ==> pairs[j].0 != pairs[i].0
    decreases |pairs| - i
  {
    if exists j :: i < j < |pairs| && pairs[j].0 == pairs[i].0 {
      var j :| i < j < |pairs| && pairs[j].0 == pairs[i].0;
      last := LastWithKey(pairs, j);
    } else {
      last := i;
    }
  }

  /** The line that writes an item: its JSON text, which reads back as the item. */
  function ItemPair(r: Record): LinePair
  {
    LinePair(r.json, r)
  }

  /** The line that writes an item. */
  function ItemLine(r: Record): FileLine
  {
    Line(r.json, Some(r))
  }

  /** `order` lists each key of `m` once: one order in which a `HashMap` can be iterated. */
  predicate IsOrder(order: seq<string>, m: map<string, Record>)
  {
    NoDuplicates(order) && (forall k :: k in order ==> k in m) && (forall k :: k in m ==> k in order)
  }

  /** The items of `m` written in the order `order`. */
  function AppendedPairs(m: map<string, Record>, order: seq<string>): (r: seq<LinePair>)
    requires forall k :: k in order ==> k in m
    ensures |r| == |order|
  {
    seq(|order|, j requires 0 <= j < |order| => ItemPair(m[order[j]]))
  }

  /** A rewritten file: the surviving old lines in their order, then the remaining items. */
  datatype Rewrite = Rewrite(kept: seq<LinePair>, appended: map<string, Record>)

  /** The file `rw` describes when the `HashMap` holding the remaining items yields them in
      the order `order`. */
  function Written(rw: Rewrite, order: seq<string>): seq<FileLine>
    requires IsOrder(order, rw.appended)
  {
    LinesOf(rw.kept + AppendedPairs(rw.appended, order))
  }

  lemma LinesOfAppend(a: seq<LinePair>, b: seq<LinePair>)
    ensures LinesOf(a + b) == LinesOf(a) + LinesOf(b)
  {
  }

  /** The first write loop of `extend`: each kept line, in order. */
  method WriteLines(pairs: seq<LinePair>) returns (out: seq<FileLine>)
    ensures out == LinesOf(pairs)
  {
    out := [];
    var i := 0;
    while i < |pairs|
      invariant 0 <= i <= |pairs|
      invariant out == LinesOf(pairs[..i])
    {
      out := out + [Line(pairs[i].line, Some(pairs[i].item))];
      i := i + 1;
    }
    assert pairs[..i] == pairs;
  }

  /** The second write loop of `extend`: each remaining item, taken from the map in
      whatever order it yields them; that order is returned beside the lines. */
  method WriteItems(m: map<string, Record>) returns (tail: seq<FileLine>, order: seq<string>)
    ensures IsOrder(order, m)
    ensures tail == LinesOf(AppendedPairs(m, order))
  {
    tail := [];
    order := [];
    var rest := m.Keys;
    while rest != {}
      invariant rest <= m.Keys
      invariant NoDuplicates(order)
      invariant forall k :: k in order <==> k in m && k !in rest
      invariant tail == LinesOf(AppendedPairs(m, order))
      decreases |rest|
    {
      var k :| k in rest;
      assert AppendedPairs(m, order + [k]) == AppendedPairs(m, order) + [ItemPair(m[k])];
      LinesOfAppend(AppendedPairs(m, order), [ItemPair(m[k])]);
      tail := tail + [Line(m[k].json, Some(m[k]))];
      order := order + [k];
      rest := rest - {k};
    }
  }

  /** The write loops of `extend`: the kept lines, then the remaining items. */
  method WriteRewrite(rw: Rewrite) returns (out: seq<FileLine>, order: seq<string>)
    ensures IsOrder(order, rw.appended)
    ensures out == Written(rw, order)
  {
    var head := WriteLines(rw.kept);
    var tail;
    tail, order := WriteItems(rw.appended);
    LinesOfAppend(rw.kept, AppendedPairs(rw.appended, order));
    out := head + tail;
  }

  /** Reading a rewritten file back gives the kept pairs, then the appended items in the
      order they were written, each under its id. */
  lemma ReadBackRewrite(rw: Rewrite, order: seq<string>)
    requires IsOrder(order, rw.appended)
    ensures ReadSkipping(Written(rw, order)) == rw.kept + AppendedPairs(rw.appended, order)
  {
    ReadBackLines(rw.kept + AppendedPairs(rw.appended, order));
  }

  /** The ids of the appended pairs are the keys written. */
  lemma AppendedIds(m: map<string, Record>, order: seq<string>)
    requires KeyedById(m) && IsOrder(order, m)
    ensures IdsOf(AppendedPairs(m, order)) == m.Keys
    ensures UniqueIds(AppendedPairs(m, order))
    ensures forall j :: 0 <= j < |order| ==> AppendedPairs(m, order)[j].item == m[order[j]] && order[j] == m[order[j]].id
  {
    var ps := AppendedPairs(m, order);
    forall k | k in m.Keys ensures k in IdsOf(ps) {
      var j :| 0 <= j < |order| && order[j] == k;
      assert ps[j].item.id == k;
    }
  }

  lemma IdsOfConcat(a: seq<LinePair>, b: seq<LinePair>)
    ensures IdsOf(a + b) == IdsOf(a) + IdsOf(b)
  {
    var c := a + b;
    forall x | x in IdsOf(c) ensures x in IdsOf(a) + IdsOf(b) {
      var i :| 0 <= i < |c| && c[i].item.id == x;
      if i < |a| { assert c[i] == a[i]; } else { assert c[i] == b[i - |a|]; }
    }
    forall x | x in IdsOf(a) ensures x in IdsOf(c) {
      var i :| 0 <= i < |a| && a[i].item.id == x;
      assert c[i] == a[i];
    }
    forall x | x in IdsOf(b) ensures x in IdsOf(c) {
      var i :| 0 <= i < |b| && b[i].item.id == x;
      assert c[|a| + i] == b[i];
    }
  }

  /** A rewrite whose kept ids and appended keys are apart: the file read back holds the
      ids of both. */
  lemma RewriteIds(rw: Rewrite, order: seq<string>)
    requires IsOrder(order, rw.appended) && KeyedById(rw.appended)
    ensures IdsOf(ReadSkipping(Written(rw, order))) == IdsOf(rw.kept) + rw.appended.Keys
  {
    ReadBackRewrite(rw, order);
    AppendedIds(rw.appended, order);
    IdsOfConcat(rw.kept, AppendedPairs(rw.appended, order));
  }

  /** ... and each of them once, if the kept ones were. */
  lemma RewriteUnique(rw: Rewrite, order: seq<string>)
    requires IsOrder(order, rw.appended) && KeyedById(rw.appended) && IdsOf(rw.kept) !! rw.appended.Keys
    requires UniqueIds(rw.kept)
    ensures UniqueIds(ReadSkipping(Written(rw, order)))
  {
    ReadBackRewrite(rw, order);
    var ap := AppendedPairs(rw.appended, order);
    AppendedIds(rw.appended, order);
    UniqueConcat(rw.kept, ap);
  }

  lemma UniqueConcat(a: seq<LinePair>, b: seq<LinePair>)
    requires UniqueIds(a) && UniqueIds(b) && IdsOf(a) !! IdsOf(b)
    ensures UniqueIds(a + b)
  {
    var r := a + b;
    forall i, j | 0 <= i < j < |r| ensures r[i].item.id != r[j].item.id {
      if j < |a| {
        assert r[i] == a[i] && r[j] == a[j];
      } else if i < |a| {
        assert r[i] == a[i] && r[j] == b[j - |a|];
        assert r[i].item.id in IdsOf(a);
        assert r[j].item.id in IdsOf(b);
      } else {
        assert r[i] == b[i - |a|] && r[j] == b[j - |a|];
      }
    }
  }

  /** In such a rewrite, an appended key is read back, and only with its appended item. */
  lemma RewriteLookup(rw: Rewrite, order: seq<string>, k: string)
    requires IsOrder(order, rw.appended) && KeyedById(rw.appended) && IdsOf(rw.kept) !! rw.appended.Keys
    requires k in rw.appended
    ensures forall p :: p in ReadSkipping(Written(rw, order)) && p.item.id == k ==> p.item == rw.appended[k]
    ensures exists p :: p in ReadSkipping(Written(rw, order)) && p.item.id == k
  {
    ReadBackRewrite(rw, order);
    var ap := AppendedPairs(rw.appended, order);
    AppendedIds(rw.appended, order);
    var r := rw.kept + ap;
    forall p | p in r && p.item.id == k ensures p.item == rw.appended[k] {
      var j :| 0 <= j < |r| && r[j] == p;
      if j >= |rw.kept| {
        assert p == ap[j - |rw.kept|];
      }
    }
    var jt :| 0 <= jt < |order| && order[jt] == k;
    assert r[|rw.kept| + jt] == ap[jt];
  }

  /** A map iterates once per key. */
  lemma OrderLength(order: seq<string>, m: map<string, Record>)
    requires IsOrder(order, m)
    ensures |order| == |m|
  {
    DistinctCard(order);
    assert (set x | x in order) == m.Keys;
  }

  lemma {:induction false} DistinctCard(s: seq<string>)
    requires NoDuplicates(s)
    ensures |set x | x in s| == |s|
  {
    if |s| > 0 {
      DistinctCard(s[1..]);
      assert (set x | x in s) == (set x | x in s[1..]) + {s[0]};
    }
  }
}
