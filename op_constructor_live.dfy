/** The top group of the playlist editor as the application holds it: one record whose
    `&mut self` methods edit its fields in place. Nested groups are values inside `list`. */
module OpConstructorLive {
  import opened Wrappers
  import opened OpConstructor

  class GroupEditor {
    const id: nat
    var operation: ActualRecursiveOps
    var list: seq<ConstructorItem>
    const collapsible: bool
    var collapsed: bool
    var n: u32

    /** The group's current state as a value. */
    function Snapshot(): SongOpConstructor
      reads this
    {
      SongOpConstructor(id, operation, list, collapsible, collapsed, n)
    }

    /** `SongOpConstructor::default()` with widget id `wid`. */
    constructor (wid: nat)
      ensures Snapshot() == Default(wid)
    {
      id := wid;
      operation := PlayOnce;
      list := [];
      collapsible := true;
      collapsed := false;
      n := 1;
    }

    /** `push`. */
    method Push(item: ConstructorItem)
      modifies this
      ensures Snapshot() == OpConstructor.Push(old(Snapshot()), item)
    {
      list := list + [item];
    }

    /** `insert`; past the end it panics and nothing changes. */
    method Insert(idx: nat, item: ConstructorItem) returns (r: Exec<()>)
      modifies this
      ensures r.Done? <==> idx <= old(|list|)
      ensures r.Done? ==> Snapshot() == OpConstructor.Insert(old(Snapshot()), idx, item).value
      ensures r.Panics? ==> Snapshot() == old(Snapshot())
    {
      if idx > |list| {
        return Panics(IndexOutOfBounds);
      }
      list := list[..idx] + [item] + list[idx..];
      return Done(());
    }

    /** `list.remove(idx)`; past the end it panics and nothing changes. */
    method Remove(idx: nat) returns (r: Exec<()>)
      modifies this
      ensures r.Done? <==> idx < old(|list|)
      ensures r.Done? ==> Snapshot() == RemoveAt(old(Snapshot()), idx).value
      ensures r.Panics? ==> Snapshot() == old(Snapshot())
    {
      if idx >= |list| {
        return Panics(IndexOutOfBounds);
      }
      list := list[..idx] + list[idx + 1..];
      return Done(());
    }

    /** `update`: the fields after the message are those of the value-level update; a
        panic leaves them as they were. */
    method Update(msg: SongOpMessage, newId: nat) returns (r: Exec<()>)
      modifies this
      ensures r.Done? <==> OpConstructor.Update(old(Snapshot()), msg, newId).Done?
      ensures r.Done? ==> Snapshot() == OpConstructor.Update(old(Snapshot()), msg, newId).value
      ensures r.Panics? ==> Snapshot() == old(Snapshot())
    {
      match msg
      case CloseSelf => r := Done(());
      case Add(item) => Push(item); r := Done(());
      case Remove(idx) => r := Remove(idx);
      case ItemMessage(idx, m) =>
        if idx >= |list| {
          r := Panics(IndexOutOfBounds);
        } else {
          match list[idx]
          case Song(_) =>
            if m == SongMessage(Closed) {
              r := Remove(idx);
            } else {
              r := Panics(Unimplemented);
            }
          case Operation(g) =>
            if m.SongMessage? {
              r := Panics(Unimplemented);
            } else if m.opMsg.CloseSelf? {
              r := Remove(idx);
            } else {
              var inner := OpConstructor.Update(g, m.opMsg, newId);
              if inner.Panics? {
                r := Panics(inner.reason);
              } else {
                list := list[idx := Operation(inner.value)];
                r := Done(());
              }
            }
        }
      case NewGroup => Push(Operation(Default(newId))); r := Done(());
      case ChangeOperation(op) => operation := op; r := Done(());
      case Collapse => collapsed := true; r := Done(());
      case Uncollapse => collapsed := false; r := Done(());
      case ChangeN(count) => n := count; r := Done(());
      case Generate => r := Done(());
      case Null => r := Done(());
    }
  }
}
