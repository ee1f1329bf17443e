/** The playlist editor: a tree of songs and groups edited by messages, and turned into a
    playlist program by `build`. */
module OpConstructor {
  import opened Wrappers
  import SongOps
  import Decimal

  type SongID = string

  /** The group kinds a user can pick. */
  datatype ActualRecursiveOps =
    | PlayOnce | LoopNTimes | Stretch | InfiniteLoop | RandomPlay | SingleRandom | InfiniteRandom

  /** The labels of the kind picker, in the order of the kinds. */
  const ConstructorChoices: seq<string> := [
    "Play Once", "Loop N Times", "Stretch", "Infinite Loop",
    "Random Play", "Single Random", "Infinite Random"
  ]

  function ChoiceIndex(op: ActualRecursiveOps): (i: nat)
    ensures i < |ConstructorChoices|
  {
    match op
    case PlayOnce => 0
    case LoopNTimes => 1
    case Stretch => 2
    case InfiniteLoop => 3
    case RandomPlay => 4
    case SingleRandom => 5
    case InfiniteRandom => 6
  }

  /** `as_str`: the picker label of a kind. */
  function AsStr(op: ActualRecursiveOps): string
  {
    ConstructorChoices[ChoiceIndex(op)]
  }

  /** `from_str`: the kind a label names. */
  function FromStr(s: string): Option<ActualRecursiveOps>
  {
    if s == "Play Once" then Some(PlayOnce)
    else if s == "Loop N Times" then Some(LoopNTimes)
    else if s == "Stretch" then Some(Stretch)
    else if s == "Infinite Loop" then Some(InfiniteLoop)
    else if s == "Random Play" then Some(RandomPlay)
    else if s == "Single Random" then Some(SingleRandom)
    else if s == "Infinite Random" then Some(InfiniteRandom)
    else None
  }

  /** Every kind reads back from its label. */
  lemma FromStrOfAsStr(op: ActualRecursiveOps)
    ensures FromStr(AsStr(op)) == Some(op)
  {
  }

  /** Exactly the seven labels are recognised, each as the kind whose label it is. */
  lemma FromStrOnlyLabels(s: string)
    ensures FromStr(s).Some? <==> s in ConstructorChoices
    ensures FromStr(s).Some? ==> AsStr(FromStr(s).value) == s
  {
  }

  /** `ClosableSongMessage`: what a song row in the editor can report. */
  datatype ClosableSongMessage = Closed | Clicked

  /** One row of a group: a song, or a nested group. */
  datatype ConstructorItem = Song(key: SongID) | Operation(group: SongOpConstructor)

  /** A group being edited. `id` is the widget id (`container::Id::unique`), `n` the count
      used by `LoopNTimes` and `Stretch`. */
  datatype SongOpConstructor = SongOpConstructor(
    id: nat,
    operation: ActualRecursiveOps,
    list: seq<ConstructorItem>,
    collapsible: bool,
    collapsed: bool,
    n: u32)

  datatype CItemMessage = SongMessage(songMsg: ClosableSongMessage) | OperationMessage(opMsg: SongOpMessage)

  datatype SongOpMessage =
    | ChangeOperation(kind: ActualRecursiveOps)
    | CloseSelf
    | Add(item: ConstructorItem)
    | Remove(index: nat)
    | NewGroup
    | ItemMessage(at: nat, message: CItemMessage)
    | Generate
    | Collapse
    | Uncollapse
    | ChangeN(count: u32)
    | Null

  /** `impl Default`: an empty, expanded `PlayOnce` group counting 1, with widget id `id`. */
  function Default(id: nat): (c: SongOpConstructor)
    ensures c.list == [] && c.operation == PlayOnce && c.n == 1 && c.id == id
  {
    SongOpConstructor(id, PlayOnce, [], true, false, 1)
  }

  /** `verify_n`: the text of the count field as a message. */
  function VerifyN(txt: string): (m: SongOpMessage)
    ensures m.ChangeN? || m.Null?
    ensures m.ChangeN? <==> Decimal.ParseU32(txt).Some?
    ensures m.ChangeN? ==> m.count == Decimal.ParseU32(txt).value
  {
    match Decimal.ParseU32(txt)
    case Some(n) => ChangeN(n)
    case None => Null
  }

  /** `push`: the item goes at the end of the list. */
  function Push(c: SongOpConstructor, item: ConstructorItem): (r: SongOpConstructor)
    ensures r.list == c.list + [item]
    ensures r.(list := c.list) == c
  {
    c.(list := c.list + [item])
  }

  /** `insert` (`Vec::insert`): the item goes at position `idx`, which may be the length;
      beyond it the call panics. */
  function Insert(c: SongOpConstructor, idx: nat, item: ConstructorItem): (r: Exec<SongOpConstructor>)
    ensures r.Done? <==> idx <= |c.list|
    ensures r.Done? ==> |r.value.list| == |c.list| + 1 && r.value.list[idx] == item &&
                        r.value.list[..idx] == c.list[..idx] && r.value.list[idx + 1..] == c.list[idx..] &&
                        r.value.(list := c.list) == c
  {
    if idx > |c.list| then Panics(IndexOutOfBounds)
    else Done(c.(list := c.list[..idx] + [item] + c.list[idx..]))
  }

  /** The list without its `idx`-th item (`Vec::remove`, which panics past the end). */
  function RemoveAt(c: SongOpConstructor, idx: nat): (r: Exec<SongOpConstructor>)
    ensures r.Done? <==> idx < |c.list|
    ensures r.Done? ==> r.value.list == c.list[..idx] + c.list[idx + 1..] && r.value.(list := c.list) == c
  {
    if idx >= |c.list| then Panics(IndexOutOfBounds)
    else Done(c.(list := c.list[..idx] + c.list[idx + 1..]))
  }

  /** `update`: applies one editor message. `newId` is the widget id a new group receives.
      The messages the source marks impossible or leaves unimplemented panic. */
  function Update(c: SongOpConstructor, msg: SongOpMessage, newId: nat): Exec<SongOpConstructor>
    decreases msg
  {
    match msg
    case CloseSelf => Done(c)
    case Add(item) => Done(Push(c, item))
    case Remove(idx) => RemoveAt(c, idx)
    case ItemMessage(idx, m) =>
      if idx >= |c.list| then Panics(IndexOutOfBounds)
      else (match c.list[idx]
        case Song(_) =>
          (match m
            case SongMessage(Closed) => RemoveAt(c, idx)
            case SongMessage(Clicked) => Panics(Unimplemented)
            case OperationMessage(_) => Panics(Unimplemented))
        case Operation(g) =>
          (match m
            case SongMessage(_) => Panics(Unimplemented)
            case OperationMessage(CloseSelf) => RemoveAt(c, idx)
            case OperationMessage(inner) =>
              (match Update(g, inner, newId)
                case Panics(p) => Panics(p)
                case Done(g1) => Done(c.(list := c.list[idx := Operation(g1)])))))
    case NewGroup => Done(Push(c, Operation(Default(newId))))
    case ChangeOperation(op) => Done(c.(operation := op))
    case Collapse => Done(c.(collapsed := true))
    case Uncollapse => Done(c.(collapsed := false))
    case ChangeN(n) => Done(c.(n := n))
    case Generate => Done(c)
    case Null => Done(c)
  }

  /** The playlist program of one row. */
  function BuildItem(item: ConstructorItem): SongOps.RecursiveSongOp
    decreases item
  {
    match item
    case Song(id) => SongOps.SinglePlay(id)
    case Operation(g) => Build(g)
  }

  /** `build`: the group kind the editor shows, over its rows in order; only `LoopNTimes`
      and `Stretch` take the count. */
  function Build(c: SongOpConstructor): (r: SongOps.RecursiveSongOp)
    ensures !r.SinglePlay?
    decreases c
  {
    var children := seq(|c.list|, i requires 0 <= i < |c.list| => BuildItem(c.list[i]));
    match c.operation
    case PlayOnce => SongOps.PlayOnce(children)
    case LoopNTimes => SongOps.LoopNTimes(children, c.n)
    case Stretch => SongOps.Stretch(children, c.n)
    case InfiniteLoop => SongOps.InfiniteLoop(children)
    case RandomPlay => SongOps.RandomPlay(children)
    case SingleRandom => SongOps.SingleRandom(children)
    case InfiniteRandom => SongOps.InfiniteRandom(children)
  }
}
