/** The `List<TodoItem>` a command loads, changes in place and saves. */
module TaskLists {
  import opened Strings
  import opened Tasks

  /** One more item scanned by `RemoveAll`: it is kept or counted. */
  lemma ScanStep(all: seq<TodoItem>, k: nat, id: int32)
    requires k < |all|
    ensures WithoutId(all[..k + 1], id) == WithoutId(all[..k], id) + (if all[k].id == id then [] else [all[k]])
    ensures CountId(all[..k + 1], id) == CountId(all[..k], id) + (if all[k].id == id then 1 else 0)
  {
    assert all[..k + 1][..k] == all[..k];
  }

  class TaskList {
    var items: seq<TodoItem>

    constructor (loaded: seq<TodoItem>)
      ensures items == loaded
    {
      items := loaded;
    }

    /** `items.Add(t)`. */
    method Add(t: TodoItem)
      modifies this
      ensures items == old(items) + [t]
    {
      items := items + [t];
    }

    /** The position `items.FirstOrDefault(t => t.Id == id)` stops at, or -1
        when it returns null. */
    method FirstIndexOf(id: int32) returns (i: int)
      ensures -1 <= i < |items|
      ensures i == -1 <==> !HasId(items, id)
      ensures i >= 0 ==> items[i].id == id && forall j :: 0 <= j < i ==> items[j].id != id
    {
      i := 0;
      while i < |items|
        invariant 0 <= i <= |items|
        invariant forall j :: 0 <= j < i ==> items[j].id != id
      {
        if items[i].id == id {
          return;
        }
        i := i + 1;
      }
      i := -1;
    }

    /** `task.IsDone = true` on the item at position `i`. */
    method SetDone(i: nat)
      requires i < |items|
      modifies this
      ensures items == old(items)[i := old(items)[i].(isDone := true)]
    {
      items := items[i := items[i].(isDone := true)];
    }

    /** `items.RemoveAll(t => t.Id == id)`: drops every item with the id and
        returns how many it dropped. */
    method RemoveAll(id: int32) returns (removed: nat)
      modifies this
      ensures items == WithoutId(old(items), id)
      ensures removed == CountId(old(items), id)
    {
      var all := items;
      var kept: seq<TodoItem> := [];
      var k := 0;
      while k < |all|
        invariant 0 <= k <= |all|
        invariant kept == WithoutId(all[..k], id)
        invariant k - |kept| == CountId(all[..k], id)
      {
        ScanStep(all, k, id);
        if all[k].id != id {
          kept := kept + [all[k]];
        }
        k := k + 1;
      }
      assert all[..k] == all;
      removed := |all| - |kept|;
      items := kept;
    }
  }
}
