/** The to-do item and the pure rules the commands apply to a list of items:
    the next id, "mark the first match done" and "remove every match". */
module Tasks {
  import opened Wrappers
  import opened Strings

  /** One entry of the list (`TodoItem` in the tool, `todoItem` in its lab copy). */
  datatype TodoItem = TodoItem(id: int32, text: string, isDone: bool)

  predicate HasId(items: seq<TodoItem>, id: int)
  {
    exists i :: 0 <= i < |items| && items[i].id == id
  }

  // ---------------------------------------------------------------- next id

  /** `items.Max(t => t.Id)`. */
  function MaxId(items: seq<TodoItem>): (m: int32)
    requires |items| > 0
    ensures forall i :: 0 <= i < |items| ==> items[i].id <= m
    ensures HasId(items, m)
  {
    if |items| == 1 then items[0].id
    else
      var rest := MaxId(items[1..]);
      assert forall i :: 1 <= i < |items| ==> items[i] == items[1..][i - 1];
      if items[0].id >= rest then items[0].id
      else
        var k :| 0 <= k < |items[1..]| && items[1..][k].id == rest;
        assert items[k + 1].id == rest;
        rest
  }

  /** `x + 1` in unchecked 32-bit arithmetic. */
  function Increment32(x: int32): (r: int32)
    ensures (r - (x + 1)) % 0x1_0000_0000 == 0
  {
    if x == INT32_MAX then INT32_MIN else x + 1
  }

  /** The id `add` gives a new item: 1 for an empty list, else the largest
      id plus one. It is above every existing id and is the least such
      value unless the largest id is already `int.MaxValue`, in which case
      the addition wraps around to `int.MinValue`. */
  function NextId(items: seq<TodoItem>): (id: int32)
    ensures |items| == 0 ==> id == 1
    ensures (forall i :: 0 <= i < |items| ==> items[i].id < INT32_MAX) ==>
              (forall i :: 0 <= i < |items| ==> items[i].id < id) &&
              (|items| == 0 || HasId(items, id - 1))
    ensures HasId(items, INT32_MAX) ==> id == INT32_MIN
  {
    if |items| == 0 then 1 else Increment32(MaxId(items))
  }

  // ---------------------------------------------------------------- remove

  /** How many items carry `id`. */
  function CountId(items: seq<TodoItem>, id: int): (n: nat)
    ensures n <= |items|
    ensures n == 0 <==> !HasId(items, id)
  {
    if |items| == 0 then 0
    else
      var front := items[..|items| - 1];
      assert forall i :: 0 <= i < |front| ==> front[i] == items[i];
      var n := CountId(front, id) + (if items[|items| - 1].id == id then 1 else 0);
      assert HasId(front, id) ==> HasId(items, id);
      n
  }

  /** The list `List.RemoveAll(t => t.Id == id)` leaves: every item without
      that id, in the original order. */
  function WithoutId(items: seq<TodoItem>, id: int): (r: seq<TodoItem>)
    ensures forall i :: 0 <= i < |r| ==> r[i].id != id
    ensures |r| == |items| - CountId(items, id)
  {
    if |items| == 0 then []
    else
      var last := items[|items| - 1];
      WithoutId(items[..|items| - 1], id) + (if last.id == id then [] else [last])
  }

  /** `a` is `b` with some items left out and the rest in the same order. */
  predicate IsSubsequence(a: seq<TodoItem>, b: seq<TodoItem>)
  {
    if |a| == 0 then true
    else if |b| == 0 then false
    else if a[|a| - 1] == b[|b| - 1] then IsSubsequence(a[..|a| - 1], b[..|b| - 1])
    else IsSubsequence(a, b[..|b| - 1])
  }

  /** Removing keeps the other items in their original relative order. */
  lemma {:induction false} WithoutIdIsSubsequence(items: seq<TodoItem>, id: int)
    ensures IsSubsequence(WithoutId(items, id), items)
  {
    if |items| > 0 {
      var front := items[..|items| - 1];
      var last := items[|items| - 1];
      WithoutIdIsSubsequence(front, id);
      var r := WithoutId(items, id);
      if last.id == id {
        assert r == WithoutId(front, id);
        if |r| > 0 {
          assert r[|r| - 1] != last;
        }
      } else {
        assert r[..|r| - 1] == WithoutId(front, id);
      }
    }
  }

  /** Removing keeps every other item as often as it occurred and drops
      every item with the id. */
  lemma {:induction false} WithoutIdCounts(items: seq<TodoItem>, id: int)
    ensures forall t: TodoItem :: multiset(WithoutId(items, id))[t] ==
              if t.id == id then 0 else multiset(items)[t]
  {
    if |items| > 0 {
      var front := items[..|items| - 1];
      var last := items[|items| - 1];
      WithoutIdCounts(front, id);
      assert items == front + [last];
      assert multiset(items) == multiset(front) + multiset{last};
    }
  }

  /** When no item has the id, removing leaves the list as it was. */
  lemma {:induction false} WithoutAbsentId(items: seq<TodoItem>, id: int)
    requires !HasId(items, id)
    ensures WithoutId(items, id) == items
  {
    if |items| > 0 {
      var front := items[..|items| - 1];
      assert forall i :: 0 <= i < |front| ==> front[i] == items[i];
      WithoutAbsentId(front, id);
      assert items == front + [items[|items| - 1]];
    }
  }

  /** Removing twice removes nothing more. */
  lemma WithoutIdIdempotent(items: seq<TodoItem>, id: int)
    ensures WithoutId(WithoutId(items, id), id) == WithoutId(items, id)
  {
    WithoutAbsentId(WithoutId(items, id), id);
  }

  // ---------------------------------------------------------------- done

  /** `items.FirstOrDefault(t => t.Id == id)`, as a position. */
  function FirstIndex(items: seq<TodoItem>, id: int): (r: Option<nat>)
    ensures r.None? <==> !HasId(items, id)
    ensures r.Some? ==> r.value < |items| && items[r.value].id == id &&
                        forall i :: 0 <= i < r.value ==> items[i].id != id
  {
    if |items| == 0 then None
    else if items[0].id == id then Some(0)
    else
      match FirstIndex(items[1..], id)
      case None =>
        assert forall i :: 1 <= i < |items| ==> items[i] == items[1..][i - 1];
        None
      case Some(k) => Some(k + 1)
  }

  /** The list after `done id`: the first item with that id is marked done,
      every other item, and every other field, is left as it was. */
  function MarkFirstDone(items: seq<TodoItem>, id: int): (r: seq<TodoItem>)
    ensures |r| == |items|
    ensures FirstIndex(items, id).None? ==> r == items
    ensures FirstIndex(items, id).Some? ==>
              var k := FirstIndex(items, id).value;
              r[k] == items[k].(isDone := true) &&
              forall i :: 0 <= i < |items| && i != k ==> r[i] == items[i]
  {
    if |items| == 0 then []
    else if items[0].id == id then [items[0].(isDone := true)] + items[1..]
    else [items[0]] + MarkFirstDone(items[1..], id)
  }

  /** Marking done keeps every item's id, so it finds the same item again. */
  lemma MarkFirstDoneKeepsIds(items: seq<TodoItem>, id: int)
    ensures forall i :: 0 <= i < |items| ==> MarkFirstDone(items, id)[i].id == items[i].id
    ensures FirstIndex(MarkFirstDone(items, id), id) == FirstIndex(items, id)
  {
    var r := MarkFirstDone(items, id);
    assert forall i :: 0 <= i < |items| ==> r[i].id == items[i].id;
    assert HasId(r, id) <==> HasId(items, id) by {
      if HasId(r, id) {
        var k :| 0 <= k < |r| && r[k].id == id;
        assert items[k].id == id;
      }
      if HasId(items, id) {
        var k :| 0 <= k < |items| && items[k].id == id;
        assert r[k].id == id;
      }
    }
  }

  /** `done id` applied twice leaves the same list as applied once. */
  lemma MarkFirstDoneIdempotent(items: seq<TodoItem>, id: int)
    ensures MarkFirstDone(MarkFirstDone(items, id), id) == MarkFirstDone(items, id)
  {
    var once := MarkFirstDone(items, id);
    MarkFirstDoneKeepsIds(items, id);
    var twice := MarkFirstDone(once, id);
    if FirstIndex(items, id).Some? {
      var k := FirstIndex(items, id).value;
      assert forall i :: 0 <= i < |items| ==> twice[i] == once[i];
    }
  }
}
