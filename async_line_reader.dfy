/** The newer `LineBasedReader` (the asynchronous `CacheReader` over an NDJSON file): a read
    that fails on the first line that does not parse, and an `extend` that filters the old
    lines through the set of new ids. */
module AsyncLineReader {
  import opened Wrappers
  import opened NdjsonLines
  import LineReader

  /** Why `read` fails: the file cannot be opened, or a line does not parse. */
  datatype ReadError = CannotOpen | BadLine

  /** `read` over the lines: it stops at an I/O error and fails at a line that does not
      parse. */
  function ReadLines(lines: seq<FileLine>): Result<seq<LinePair>, ReadError>
  {
    if |lines| == 0 then Ok([])
    else match lines[0]
      case IoError => Ok([])
      case Line(t, p) =>
        if p.None? then Err(BadLine)
        else match ReadLines(lines[1..])
          case Ok(rest) => Ok([LinePair(t, p.value)] + rest)
          case Err(e) => Err(e)
  }

  /** `read`. */
  function ReadStrict(file: File): Result<seq<LinePair>, ReadError>
  {
    match file
    case None => Err(CannotOpen)
    case Some(lines) => ReadLines(lines)
  }

  /** `pairs` read so far, followed by what the rest of the file reads to. */
  function Then(pairs: seq<LinePair>, r: Result<seq<LinePair>, ReadError>): Result<seq<LinePair>, ReadError>
  {
    match r
    case Ok(rest) => Ok(pairs + rest)
    case Err(e) => Err(e)
  }

  /** `read`: the `while let Some(Ok(line))` loop pushing each parsed line, returning early
      through `?` at the first line that does not parse. */
  method Read(file: File) returns (r: Result<seq<LinePair>, ReadError>)
    ensures r == ReadStrict(file)
  {
    if file.None? {
      return Err(CannotOpen);
    }
    var lines := file.value;
    var vec: seq<LinePair> := [];
    var i := 0;
    assert lines[0..] == lines;
    ThenNothing(ReadLines(lines));
    while i < |lines| && lines[i].Line?
      invariant 0 <= i <= |lines|
      invariant ReadLines(lines) == Then(vec, ReadLines(lines[i..]))
    {
      assert lines[i..][1..] == lines[i + 1..];
      if lines[i].parsed.None? {
        return Err(BadLine);
      }
      ThenStep(vec, LinePair(lines[i].text, lines[i].parsed.value), ReadLines(lines[i + 1..]));
      vec := vec + [LinePair(lines[i].text, lines[i].parsed.value)];
      i := i + 1;
    }
    assert vec + [] == vec;
    return Ok(vec);
  }

  lemma ThenNothing(r: Result<seq<LinePair>, ReadError>)
    ensures Then([], r) == r
  {
    if r.Ok? { assert [] + r.value == r.value; }
  }

  lemma ThenStep(vec: seq<LinePair>, p: LinePair, r: Result<seq<LinePair>, ReadError>)
    ensures Then(vec, Then([p], r)) == Then(vec + [p], r)
  {
    if r.Ok? { assert vec + ([p] + r.value) == vec + [p] + r.value; }
  }

  /** The strict read fails exactly when some line before the first I/O error does not
      parse; otherwise it reads what the skipping read of the older reader reads. */
  lemma {:induction false} StrictRead(lines: seq<FileLine>)
    ensures ReadLines(lines).Err? <==>
            exists j :: 0 <= j < |lines| && lines[j].Line? && lines[j].parsed.None? && IoError !in lines[..j]
    ensures ReadLines(lines).Ok? ==> ReadLines(lines).value == ReadSkipping(lines)
  {
    if |lines| > 0 {
      StrictRead(lines[1..]);
      if lines[0].Line? && lines[0].parsed.Some? {
        if exists j :: 0 <= j < |lines[1..]| && lines[1..][j].Line? && lines[1..][j].parsed.None? && IoError !in lines[1..][..j] {
          var j :| 0 <= j < |lines[1..]| && lines[1..][j].Line? && lines[1..][j].parsed.None? && IoError !in lines[1..][..j];
          assert lines[..j + 1] == [lines[0]] + lines[1..][..j];
        }
        if exists j :: 0 <= j < |lines| && lines[j].Line? && lines[j].parsed.None? && IoError !in lines[..j] {
          var j :| 0 <= j < |lines| && lines[j].Line? && lines[j].parsed.None? && IoError !in lines[..j];
          assert j > 0;
          assert lines[1..][..j - 1] == lines[1..j];
          assert lines[..j] == [lines[0]] + lines[1..j];
        }
      } else if lines[0].Line? {
        assert lines[..0] == [];
      } else {
        forall j | 0 < j < |lines| ensures IoError in lines[..j] {
          assert lines[..j][0] == IoError;
        }
      }
    }
  }

  /** `filter_file_items`: with `overwrite`, the lines whose id is among the new ones are
      dropped; otherwise every line is kept. */
  function FilterKept(pairs: seq<LinePair>, overwrite: bool, keys: set<string>): seq<LinePair>
  {
    if overwrite then WithoutIds(pairs, keys) else pairs
  }

  /** The file `extend` writes. As written, every new item is appended even when it is kept
      on file; `Corrected` appends only those not on file, as the older reader does. A file
      that cannot be read, or has a line that does not parse, is replaced by the new items. */
  function Merged(file: File, items: seq<Record>, overwrite: bool, rev: Revision): Rewrite
  {
    var pending := Pending(items);
    match ReadStrict(file)
    case Err(_) => Rewrite([], pending)
    case Ok(read) =>
      Rewrite(FilterKept(read, overwrite, pending.Keys),
              if overwrite || rev == AsWritten then pending else pending - IdsOf(read))
  }

  /** `extend`: collect the items by id, read and filter the old lines, write them, then
      write every item of the map (only those not on file, for `Corrected`). */
  method Extend(file: File, items: seq<Record>, overwrite: bool, rev: Revision) returns (out: seq<FileLine>, order: seq<string>)
    ensures IsOrder(order, Merged(file, items, overwrite, rev).appended)
    ensures out == Written(Merged(file, items, overwrite, rev), order)
  {
    var pending := CollectById(items);
    var kept: seq<LinePair> := [];
    var read := Read(file);
    if read.Ok? {
      kept := FilterKept(read.value, overwrite, pending.Keys);
      if !overwrite && rev == Corrected {
        pending := pending - IdsOf(read.value);
      }
    }
    out, order := WriteRewrite(Rewrite(kept, pending));
  }

  /** When the old file reads without error, the corrected `extend` writes what the older
      reader's `extend` writes, and with `overwrite` so does the code as written. */
  lemma CorrectedAgreesWithOlder(file: File, items: seq<Record>, overwrite: bool)
    requires ReadStrict(file).Ok?
    ensures Merged(file, items, overwrite, Corrected) == LineReader.Merged(file, items, overwrite)
    ensures overwrite ==> Merged(file, items, true, AsWritten) == LineReader.Merged(file, items, true)
  {
    StrictRead(file.value);
  }

  /** One line that does not parse makes `extend` lose the whole old file: the new file
      holds the new items and nothing else. */
  lemma BadLineDropsOldFile(lines: seq<FileLine>, j: nat, items: seq<Record>, overwrite: bool, rev: Revision, order: seq<string>)
    requires j < |lines| && lines[j].Line? && lines[j].parsed.None? && IoError !in lines[..j]
    requires IsOrder(order, Merged(Some(lines), items, overwrite, rev).appended)
    ensures IdsOf(ReadSkipping(Written(Merged(Some(lines), items, overwrite, rev), order))) == LineReader.ItemIds(items)
    ensures |ReadSkipping(Written(Merged(Some(lines), items, overwrite, rev), order))| == |Pending(items)|
  {
    StrictRead(lines);
    PendingLastWins(items);
    var rw := Merged(Some(lines), items, overwrite, rev);
    RewriteIds(rw, order);
    ReadBackRewrite(rw, order);
    OrderLength(order, rw.appended);
  }

  /** As written, extending without `overwrite` appends every new item even when its id is
      already on file: the file read back is one line longer per new item, and the smallest
      case, one item extended onto a file holding it, leaves the item on file twice. */
  lemma AsWrittenKeepingDuplicates(file: File, items: seq<Record>, order: seq<string>, r: Record, order1: seq<string>)
    requires ReadStrict(file).Ok?
    requires IsOrder(order, Merged(file, items, false, AsWritten).appended)
    requires IsOrder(order1, Merged(Some([ItemLine(r)]), [r], false, AsWritten).appended)
    ensures |ReadSkipping(Written(Merged(file, items, false, AsWritten), order))| == |ReadStrict(file).value| + |Pending(items)|
    ensures ReadSkipping(Written(Merged(Some([ItemLine(r)]), [r], false, AsWritten), order1)) == [ItemPair(r), ItemPair(r)]
    ensures !UniqueIds(ReadSkipping(Written(Merged(Some([ItemLine(r)]), [r], false, AsWritten), order1)))
  {
    var rw := Merged(file, items, false, AsWritten);
    ReadBackRewrite(rw, order);
    OrderLength(order, rw.appended);
    var one := [ItemLine(r)];
    ReadItemLines(r, r);
    var rw1 := Merged(Some(one), [r], false, AsWritten);
    PendingOne(r);
    assert rw1 == Rewrite([ItemPair(r)], map[r.id := r]);
    ReadBackRewrite(rw1, order1);
    OrderLength(order1, rw1.appended);
    assert order1[0] in rw1.appended;
    assert order1 == [r.id];
    var out := ReadSkipping(Written(rw1, order1));
    assert out[0].item.id == out[1].item.id;
  }

  /** The corrected `extend` keeps the ids of a file unique. */
  lemma CorrectedKeepsIdsUnique(file: File, items: seq<Record>, overwrite: bool, order: seq<string>)
    requires ReadStrict(file).Ok? && UniqueIds(ReadStrict(file).value)
    requires IsOrder(order, Merged(file, items, overwrite, Corrected).appended)
    ensures UniqueIds(ReadSkipping(Written(Merged(file, items, overwrite, Corrected), order)))
  {
    StrictRead(file.value);
    CorrectedAgreesWithOlder(file, items, overwrite);
    LineReader.ExtendIds(file, items, overwrite, order);
  }

  /** Extending a second time with the same items without `overwrite`, the corrected
      `extend` leaves the file as the first time made it. */
  lemma CorrectedExtendTwiceKeeps(file: File, items: seq<Record>, order: seq<string>, order2: seq<string>)
    requires ReadStrict(file).Ok?
    requires IsOrder(order, Merged(file, items, false, Corrected).appended)
    requires IsOrder(order2, Merged(Some(Written(Merged(file, items, false, Corrected), order)), items, false, Corrected).appended)
    ensures Written(Merged(Some(Written(Merged(file, items, false, Corrected), order)), items, false, Corrected), order2) ==
            Written(Merged(file, items, false, Corrected), order)
  {
    CorrectedAgreesWithOlder(file, items, false);
    var out1 := Written(Merged(file, items, false, Corrected), order);
    ReadAllParsed(out1);
    WrittenReadsStrictly(out1);
    CorrectedAgreesWithOlder(Some(out1), items, false);
    LineReader.ExtendTwiceKeeps(file, items, order, order2);
  }

  /** Files of one and two item lines read as those items. */
  lemma ReadItemLines(a: Record, b: Record)
    ensures ReadLines([ItemLine(a)]) == Ok([ItemPair(a)])
    ensures ReadLines([ItemLine(a), ItemLine(b)]) == Ok([ItemPair(a), ItemPair(b)])
  {
    var one, two := [ItemLine(a)], [ItemLine(a), ItemLine(b)];
    assert one[1..] == [];
    assert [ItemPair(a)] + [] == [ItemPair(a)];
    assert two[1..] == [ItemLine(b)] && two[1..][1..] == [];
    assert [ItemPair(b)] + [] == [ItemPair(b)];
    assert [ItemPair(a)] + [ItemPair(b)] == [ItemPair(a), ItemPair(b)];
  }

  /** A file every line of which parses reads without error. */
  lemma {:induction false} WrittenReadsStrictly(lines: seq<FileLine>)
    requires AllParsed(lines)
    ensures ReadLines(lines).Ok?
  {
    StrictRead(lines);
  }
}
