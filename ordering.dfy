/** `items.OrderBy(t => t.Id)`: a stable sort by ascending id. */
module Ordering {
  import opened Tasks

  predicate SortedById(s: seq<TodoItem>)
  {
    forall i, j :: 0 <= i < j < |s| ==> s[i].id <= s[j].id
  }

  /** The items of `s` that carry id `k`, in the order of `s`. */
  function WithId(s: seq<TodoItem>, k: int): (r: seq<TodoItem>)
    ensures |r| <= |s|
  {
    if |s| == 0 then []
    else (if s[0].id == k then [s[0]] else []) + WithId(s[1..], k)
  }

  /** Puts `x` before the first item of `s` whose id is not smaller. */
  function Insert(x: TodoItem, s: seq<TodoItem>): (r: seq<TodoItem>)
    ensures |r| == |s| + 1
    ensures multiset(r) == multiset(s) + multiset{x}
    ensures r[0] == x || (|s| > 0 && r[0] == s[0])
  {
    if |s| == 0 || x.id <= s[0].id then [x] + s
    else
      assert s == [s[0]] + s[1..];
      [s[0]] + Insert(x, s[1..])
  }

  lemma {:induction false} InsertSorted(x: TodoItem, s: seq<TodoItem>)
    requires SortedById(s)
    ensures SortedById(Insert(x, s))
  {
    if |s| > 0 && x.id > s[0].id {
      var rest := Insert(x, s[1..]);
      InsertSorted(x, s[1..]);
      var r := Insert(x, s);
      assert r == [s[0]] + rest;
      assert rest[0] == x || rest[0] == s[1];
      assert forall j :: 1 <= j < |r| ==> r[j] == rest[j - 1];
    }
  }

  /** The sequence `OrderBy` enumerates. */
  function SortById(s: seq<TodoItem>): (r: seq<TodoItem>)
    ensures |r| == |s|
    ensures SortedById(r)
    ensures multiset(r) == multiset(s)
  {
    if |s| == 0 then []
    else
      InsertSorted(s[0], SortById(s[1..]));
      assert s == [s[0]] + s[1..];
      Insert(s[0], SortById(s[1..]))
  }

  lemma {:induction false} InsertStable(x: TodoItem, s: seq<TodoItem>, k: int)
    ensures WithId(Insert(x, s), k) == (if x.id == k then [x] else []) + WithId(s, k)
  {
    if |s| == 0 || x.id <= s[0].id {
      assert ([x] + s)[1..] == s;
    } else {
      InsertStable(x, s[1..], k);
      var r := Insert(x, s);
      assert r[0] == s[0] && r[1..] == Insert(x, s[1..]);
      var head := if s[0].id == k then [s[0]] else [];
      assert WithId(r, k) == head + WithId(r[1..], k);
      assert WithId(s, k) == head + WithId(s[1..], k);
      if x.id == k {
        assert head == [];
      }
    }
  }

  /** `OrderBy` is stable: the items that share an id come out in the order
      they were stored in. */
  lemma {:induction false} SortByIdStable(s: seq<TodoItem>, k: int)
    ensures WithId(SortById(s), k) == WithId(s, k)
  {
    if |s| > 0 {
      SortByIdStable(s[1..], k);
      InsertStable(s[0], SortById(s[1..]), k);
    }
  }

  /** Equal keyed sub-lists and sortedness pin a sequence down: a sequence
      sorted by id whose items with each id are those of `s`, in the order
      of `s`, is `SortById(s)`. So `SortById` is the only stable sort. */
  lemma {:induction false} StableSortUnique(s: seq<TodoItem>, r: seq<TodoItem>)
    requires SortedById(r)
    requires forall k :: WithId(r, k) == WithId(s, k)
    ensures r == SortById(s)
  {
    var t := SortById(s);
    forall k ensures WithId(r, k) == WithId(t, k) {
      SortByIdStable(s, k);
    }
    SortedSameKeys(r, t);
  }

  lemma {:induction false} SortedSameKeys(r: seq<TodoItem>, t: seq<TodoItem>)
    requires SortedById(r) && SortedById(t)
    requires forall k :: WithId(r, k) == WithId(t, k)
    ensures r == t
    decreases |r| + |t|
  {
    if |r| == 0 && |t| == 0 {
    } else if |r| == 0 {
      FirstIdPresent(t);
      assert false;
    } else if |t| == 0 {
      FirstIdPresent(r);
      assert false;
    } else {
      var a, b := r[0], t[0];
      if a.id < b.id {
        NoSmallerId(t, a.id);
        assert false;
      } else if b.id < a.id {
        NoSmallerId(r, b.id);
        assert false;
      } else {
        assert WithId(r, a.id)[0] == a && WithId(t, a.id)[0] == b;
        forall k ensures WithId(r[1..], k) == WithId(t[1..], k) {
          if k == a.id {
            assert WithId(r, k) == [a] + WithId(r[1..], k);
            assert WithId(t, k) == [b] + WithId(t[1..], k);
            assert WithId(r[1..], k) == WithId(r, k)[1..];
            assert WithId(t[1..], k) == WithId(t, k)[1..];
          } else {
            assert WithId(r, k) == WithId(r[1..], k);
            assert WithId(t, k) == WithId(t[1..], k);
          }
        }
        SortedSameKeys(r[1..], t[1..]);
        assert r == [a] + r[1..] && t == [b] + t[1..];
      }
    }
  }

  lemma FirstIdPresent(s: seq<TodoItem>)
    requires |s| > 0
    ensures WithId(s, s[0].id) != []
  {
  }

  /** A sorted sequence whose first id is above `k` holds no item with id `k`. */
  lemma {:induction false} NoSmallerId(s: seq<TodoItem>, k: int)
    requires SortedById(s) && |s| > 0 && k < s[0].id
    ensures WithId(s, k) == []
    decreases |s|
  {
    if |s| > 1 {
      NoSmallerId(s[1..], k);
    }
  }
}
