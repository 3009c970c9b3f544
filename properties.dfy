/** What runs of the program promise, stated over `Invoke`: the dispatch
    rules, argument checks that come before any store access, id
    assignment and reuse, the frame of each verb, and where the two copies
    of the tool differ. */
module Properties {
  import opened Wrappers
  import opened Strings
  import opened Tasks
  import opened Ordering
  import opened Listing
  import opened Repository
  import opened Commands

  // ---------------------------------------------------------------- dispatch

  /** Without arguments the program prints the usage, gives 1 and does not
      touch the store. */
  lemma NoArguments(v: Variant, file: FileState)
    ensures Invoke(v, [], file) == Effect(Returned(1, [Usage(Advertised(v))]), false, false, file)
  {
  }

  /** The verb is matched whatever its case: a run with the verb as typed
      and a run with the verb in lower case do the same. */
  lemma VerbCaseInsensitive(v: Variant, verb: string, rest: seq<string>, file: FileState)
    ensures Invoke(v, [verb] + rest, file) == Invoke(v, [ToLowerInvariant(verb)] + rest, file)
  {
    ToLowerIdempotent(verb);
    assert ([verb] + rest)[1..] == rest;
    assert ([ToLowerInvariant(verb)] + rest)[1..] == rest;
  }

  /** Two spellings of a verb that differ only in the case of ASCII letters
      run the same command with the same outcome. */
  lemma SameVerbAnyCase(v: Variant, verb1: string, verb2: string, rest: seq<string>, file: FileState)
    requires SameIgnoringCase(verb1, verb2)
    ensures Invoke(v, [verb1] + rest, file) == Invoke(v, [verb2] + rest, file)
  {
    LowerSameIgnoringCase(verb1, verb2);
    assert ([verb1] + rest)[1..] == rest;
    assert ([verb2] + rest)[1..] == rest;
  }

  /** A verb the switch has no case for gives 1 and leaves the store alone. */
  lemma UnknownVerbTouchesNothing(v: Variant, args: seq<string>, file: FileState)
    requires |args| > 0 && !Handles(v, ToLowerInvariant(args[0]))
    ensures var e := Invoke(v, args, file);
      e.result == Returned(1, [UnknownVerb(ToLowerInvariant(args[0])), Usage(Advertised(v))]) &&
      !e.loaded && !e.saved && e.file == file
  {
  }

  /** `add` with no text gives 1 before the store is read. */
  lemma AddNeedsText(v: Variant, args: seq<string>, file: FileState)
    requires |args| == 1 && ToLowerInvariant(args[0]) == "add"
    ensures Invoke(v, args, file) == Effect(Returned(1, [MissingText]), false, false, file)
  {
  }

  /** `done` and `remove` without an argument that parses as an `int` give 1
      before the store is read. */
  lemma IdArgumentChecked(v: Variant, args: seq<string>, file: FileState)
    requires |args| > 0 && ToLowerInvariant(args[0]) in {"done", "remove"}
    requires |args| == 1 || ParseInt(args[1]).None?
    ensures Invoke(v, args, file) == Effect(Returned(1, [NeedNumericId]), false, false, file)
  {
  }

  /** A file that does not deserialise is never overwritten; every command
      that reads it gives 1. */
  lemma UnparseableFileKept(v: Variant, args: seq<string>)
    ensures var e := Invoke(v, args, Present(Unparseable));
      e.file == Present(Unparseable) && (e.loaded ==> e.result == Returned(1, [Failed(JsonException)]))
  {
    var file := Present(Unparseable);
    if |args| > 0 {
      var command := ToLowerInvariant(args[0]);
      if command == "add" {
        RunsAdd(v, args, file);
      } else if command == "list" {
        RunsList(v, args, file);
      } else if command == "done" {
        RunsDone(v, args, file);
      } else if command == "remove" {
        RunsRemove(v, args, file);
      }
    }
  }

  // ---------------------------------------------------------------- one verb at a time

  lemma RunsAdd(v: Variant, args: seq<string>, file: FileState)
    requires |args| > 0 && ToLowerInvariant(args[0]) == "add"
    ensures Invoke(v, args, file) == Catch(AddEffect(v, args[1..], file))
  {
  }

  lemma RunsList(v: Variant, args: seq<string>, file: FileState)
    requires |args| > 0 && ToLowerInvariant(args[0]) == "list"
    ensures Invoke(v, args, file) == Catch(ListEffect(v, file))
  {
  }

  lemma RunsDone(v: Variant, args: seq<string>, file: FileState)
    requires |args| > 0 && ToLowerInvariant(args[0]) == "done"
    ensures Invoke(v, args, file) == Catch(DoneEffect(v, args[1..], file))
  {
  }

  lemma RunsRemove(v: Variant, args: seq<string>, file: FileState)
    requires |args| > 0 && ToLowerInvariant(args[0]) == "remove"
    ensures Invoke(v, args, file) == Catch(RemoveEffect(v, args[1..], file))
  {
  }

  // ---------------------------------------------------------------- add

  /** `add` appends one not-done item whose text is the arguments joined by
      single spaces and whose id is `NextId`; the items before it are kept
      as they were. Below `int.MaxValue` the new id is not in use. */
  lemma AddAppends(v: Variant, text: seq<string>, file: FileState, items: seq<TodoItem>)
    requires |text| > 0 && Decode(v, file) == Items(items)
    ensures var e := Invoke(v, ["add"] + text, file);
      var t := TodoItem(NextId(items), JoinWithSpace(text), false);
      e.result == Returned(0, [Added(t.id)]) && e.loaded && e.saved &&
      e.file == Present(JsonList(items + [t]))
    ensures (forall i :: 0 <= i < |items| ==> items[i].id < INT32_MAX) ==> !HasId(items, NextId(items))
  {
    var args := ["add"] + text;
    VerbsLowerCase();
    assert args[0] == "add" && args[1..] == text;
    RunsAdd(v, args, file);
  }

  /** Ids are not a counter: once the item with the largest id is removed,
      the next `add` gives out that id again. */
  lemma FreedIdReused(v: Variant, text1: seq<string>, text2: seq<string>, file: FileState, items: seq<TodoItem>)
    requires |text1| > 0 && |text2| > 0 && Decode(v, file) == Items(items)
    requires forall i :: 0 <= i < |items| ==> items[i].id < INT32_MAX
    ensures var id := NextId(items);
      var added := Invoke(v, ["add"] + text1, file);
      var removed := Invoke(v, ["remove", IntToString(id)], added.file);
      removed.result == Returned(0, [Removed(id)]) &&
      removed.file == Present(JsonList(items)) &&
      Invoke(v, ["add"] + text2, removed.file).result == Returned(0, [Added(id)])
  {
    var id := NextId(items);
    var after := items + [TodoItem(id, JoinWithSpace(text1), false)];
    AddAppends(v, text1, file, items);
    assert HasId(after, id) by {
      assert after[|items|].id == id;
    }
    var args := ["remove", IntToString(id)];
    IntToStringParses(id);
    VerbsLowerCase();
    assert args[0] == "remove" && ParseId(args[1..]) == Some(id);
    RunsRemove(v, args, Present(JsonList(after)));
    assert WithoutId(after, id) == items by {
      assert after[..|after| - 1] == items;
      WithoutAbsentId(items, id);
    }
    AddAppends(v, text2, Present(JsonList(items)), items);
  }

  // ---------------------------------------------------------------- done

  /** `done id` marks the first item with the id, and only that item, saves
      and gives 0; with no such item it gives 1 and does not save. */
  lemma DoneMarksFirst(v: Variant, args: seq<string>, id: int32, file: FileState, items: seq<TodoItem>)
    requires |args| >= 2 && ToLowerInvariant(args[0]) == "done" && ParseInt(args[1]) == Some(id)
    requires Decode(v, file) == Items(items)
    ensures var e := Invoke(v, args, file);
      e.loaded &&
      (HasId(items, id) ==>
         e.result == Returned(0, [MarkedDone(id)]) && e.saved &&
         e.file == Present(JsonList(MarkFirstDone(items, id)))) &&
      (!HasId(items, id) ==>
         e.result == Returned(1, [NotFound(id)]) && !e.saved && e.file == file)
  {
    assert ParseId(args[1..]) == Some(id);
    RunsDone(v, args, file);
  }

  /** Running the same `done` twice leaves the store as running it once,
      with the same exit code. */
  lemma DoneTwice(v: Variant, args: seq<string>, id: int32, file: FileState, items: seq<TodoItem>)
    requires |args| >= 2 && ToLowerInvariant(args[0]) == "done" && ParseInt(args[1]) == Some(id)
    requires Decode(v, file) == Items(items)
    ensures var first := Invoke(v, args, file);
      var second := Invoke(v, args, first.file);
      second.file == first.file && second.result == first.result
  {
    DoneMarksFirst(v, args, id, file, items);
    if HasId(items, id) {
      var marked := MarkFirstDone(items, id);
      MarkFirstDoneKeepsIds(items, id);
      MarkFirstDoneIdempotent(items, id);
      DoneMarksFirst(v, args, id, Present(JsonList(marked)), marked);
    } else {
      DoneMarksFirst(v, args, id, file, items);
    }
  }

  // ---------------------------------------------------------------- remove

  /** `remove id` drops every item with the id and keeps the others in
      their order, saves and gives 0; with no such item it gives 1 and
      does not save. */
  lemma RemoveDropsAll(v: Variant, args: seq<string>, id: int32, file: FileState, items: seq<TodoItem>)
    requires |args| >= 2 && ToLowerInvariant(args[0]) == "remove" && ParseInt(args[1]) == Some(id)
    requires Decode(v, file) == Items(items)
    ensures var e := Invoke(v, args, file);
      e.loaded &&
      (HasId(items, id) ==>
         e.result == Returned(0, [Removed(id)]) && e.saved &&
         e.file == Present(JsonList(WithoutId(items, id))) &&
         IsSubsequence(WithoutId(items, id), items) &&
         forall t: TodoItem :: t.id != id ==> multiset(WithoutId(items, id))[t] == multiset(items)[t]) &&
      (!HasId(items, id) ==>
         e.result == Returned(1, [NotFound(id)]) && !e.saved && e.file == file)
  {
    assert ParseId(args[1..]) == Some(id);
    RunsRemove(v, args, file);
    WithoutIdIsSubsequence(items, id);
    WithoutIdCounts(items, id);
  }

  /** A second `remove` of the same id finds nothing: it gives 1 and leaves
      the store as the first left it. */
  lemma RemoveTwice(v: Variant, args: seq<string>, id: int32, file: FileState, items: seq<TodoItem>)
    requires |args| >= 2 && ToLowerInvariant(args[0]) == "remove" && ParseInt(args[1]) == Some(id)
    requires Decode(v, file) == Items(items) && HasId(items, id)
    ensures var first := Invoke(v, args, file);
      var second := Invoke(v, args, first.file);
      first.result.code == 0 &&
      second.result == Returned(1, [NotFound(id)]) && !second.saved && second.file == first.file
  {
    RemoveDropsAll(v, args, id, file, items);
    var left := WithoutId(items, id);
    RemoveDropsAll(v, args, id, Present(JsonList(left)), left);
  }

  // ---------------------------------------------------------------- list

  /** `list` never saves and gives 0 on a readable store: the empty-list
      message for no items, else one line per item in ascending id order,
      each of which reads back as the item it shows. */
  lemma ListShowsSorted(v: Variant, args: seq<string>, file: FileState, items: seq<TodoItem>)
    requires |args| >= 1 && ToLowerInvariant(args[0]) == "list"
    requires Decode(v, file) == Items(items)
    ensures var e := Invoke(v, args, file);
      e.result.code == 0 && e.loaded && !e.saved && e.file == file &&
      (|items| == 0 ==> e.result.out == [EmptyList]) &&
      (|items| > 0 ==>
         |e.result.out| == |items| &&
         forall i :: 0 <= i < |items| ==>
           e.result.out[i].Line? && ParseLine(e.result.out[i].text) == Some(SortById(items)[i]))
  {
    var e := Invoke(v, args, file);
    if |items| > 0 {
      var sorted := SortById(items);
      forall i | 0 <= i < |items|
        ensures e.result.out[i].Line? && ParseLine(e.result.out[i].text) == Some(sorted[i])
      {
        LinesBeforeAt(sorted, |items|, i);
        FormatLineParses(sorted[i]);
      }
    }
  }

  /** Listing twice in a row prints the same both times. */
  lemma ListTwice(v: Variant, args: seq<string>, file: FileState)
    requires |args| >= 1 && ToLowerInvariant(args[0]) == "list"
    ensures Invoke(v, args, Invoke(v, args, file).file) == Invoke(v, args, file)
  {
  }

  // ---------------------------------------------------------------- a whole session

  lemma OneParses()
    ensures ParseInt("1") == Some(1)
  {
    IntToStringParses(1);
    assert IntToString(1) == "1";
  }

  lemma VerbsLowerCase()
    ensures ToLowerInvariant("add") == "add" && ToLowerInvariant("done") == "done"
    ensures ToLowerInvariant("list") == "list" && ToLowerInvariant("remove") == "remove"
  {
  }

  lemma SessionAdd(v: Variant)
    ensures Invoke(v, ["add", "write", "spec"], Missing) ==
            Effect(Returned(0, [Added(1)]), true, true, Present(JsonList([TodoItem(1, "write spec", false)])))
  {
    var text := ["write", "spec"];
    assert JoinWithSpace(text) == "write spec";
    AddAppends(v, text, Missing, []);
    assert ["add", "write", "spec"] == ["add"] + text;
    assert [] + [TodoItem(1, "write spec", false)] == [TodoItem(1, "write spec", false)];
  }

  lemma OnlyItem(item: TodoItem)
    ensures HasId([item], item.id)
    ensures MarkFirstDone([item], item.id) == [item.(isDone := true)]
    ensures WithoutId([item], item.id) == []
  {
    assert [item][0].id == item.id;
    assert [item][1..] == [];
  }

  lemma SessionDone(v: Variant)
    ensures Invoke(v, ["done", "1"], Present(JsonList([TodoItem(1, "write spec", false)]))) ==
            Effect(Returned(0, [MarkedDone(1)]), true, true, Present(JsonList([TodoItem(1, "write spec", true)])))
  {
    OneParses();
    DoneOnlyItem(v, "1", TodoItem(1, "write spec", false));
  }

  /** `done` of the id of the only item marks it. */
  lemma DoneOnlyItem(v: Variant, arg: string, item: TodoItem)
    requires ParseInt(arg) == Some(item.id)
    ensures Invoke(v, ["done", arg], Present(JsonList([item]))) ==
            Effect(Returned(0, [MarkedDone(item.id)]), true, true, Present(JsonList([item.(isDone := true)])))
  {
    VerbsLowerCase();
    OnlyItem(item);
    DoneMarksFirst(v, ["done", arg], item.id, Present(JsonList([item])), [item]);
  }

  lemma ListOfOne(t: TodoItem)
    ensures ListLines([t]) == [Line(FormatLine(t))]
  {
    assert SortById([t]) == [t];
  }

  lemma FirstLine()
    ensures FormatLine(TodoItem(1, "write spec", true)) == "  1 [x] write spec"
  {
    var item := TodoItem(1, "write spec", true);
    PadOne();
    assert Fields(item) == " [x] write spec";
    assert FormatLine(item) == "  1" + " [x] write spec";
  }

  lemma PadOne()
    ensures PadLeft(IntToString(1), 3) == "  1"
  {
    assert IntToString(1) == "1";
    assert Spaces(2) == "  ";
  }

  lemma SessionList(v: Variant)
    ensures Invoke(v, ["list"], Present(JsonList([TodoItem(1, "write spec", true)]))) ==
            Effect(Returned(0, [Line("  1 [x] write spec")]), true, false,
                   Present(JsonList([TodoItem(1, "write spec", true)])))
  {
    var item := TodoItem(1, "write spec", true);
    VerbsLowerCase();
    RunsList(v, ["list"], Present(JsonList([item])));
    ListOfOne(item);
    FirstLine();
  }

  lemma SessionRemove(v: Variant)
    ensures Invoke(v, ["remove", "1"], Present(JsonList([TodoItem(1, "write spec", true)]))) ==
            Effect(Returned(0, [Removed(1)]), true, true, Present(JsonList([])))
  {
    OneParses();
    RemoveOnlyItem(v, "1", TodoItem(1, "write spec", true));
  }

  /** `remove` of the id of the only item empties the list. */
  lemma RemoveOnlyItem(v: Variant, arg: string, item: TodoItem)
    requires ParseInt(arg) == Some(item.id)
    ensures Invoke(v, ["remove", arg], Present(JsonList([item]))) ==
            Effect(Returned(0, [Removed(item.id)]), true, true, Present(JsonList([])))
  {
    VerbsLowerCase();
    OnlyItem(item);
    RemoveDropsAll(v, ["remove", arg], item.id, Present(JsonList([item])), [item]);
  }

  lemma SessionRelist(v: Variant)
    ensures Invoke(v, ["list"], Present(JsonList([]))).result == Returned(0, [EmptyList])
  {
    VerbsLowerCase();
  }

  /** A fresh store; `add write spec` gives id 1; `done 1` marks it; `list`
      prints `  1 [x] write spec`; `remove 1` empties the list; `list` then
      prints the empty-list message. */
  lemma Session(v: Variant)
    ensures var added := Invoke(v, ["add", "write", "spec"], Missing);
      var done := Invoke(v, ["done", "1"], added.file);
      var listed := Invoke(v, ["list"], done.file);
      var removed := Invoke(v, ["remove", "1"], listed.file);
      var relisted := Invoke(v, ["list"], removed.file);
      added.result == Returned(0, [Added(1)]) &&
      added.file == Present(JsonList([TodoItem(1, "write spec", false)])) &&
      done.result == Returned(0, [MarkedDone(1)]) &&
      done.file == Present(JsonList([TodoItem(1, "write spec", true)])) &&
      listed.result == Returned(0, [Line("  1 [x] write spec")]) &&
      removed.result == Returned(0, [Removed(1)]) &&
      relisted.result == Returned(0, [EmptyList])
  {
    var added := Invoke(v, ["add", "write", "spec"], Missing);
    SessionAdd(v);
    assert added.file == Present(JsonList([TodoItem(1, "write spec", false)]));
    var done := Invoke(v, ["done", "1"], added.file);
    SessionDone(v);
    assert done.file == Present(JsonList([TodoItem(1, "write spec", true)]));
    var listed := Invoke(v, ["list"], done.file);
    SessionList(v);
    assert listed.file == done.file;
    var removed := Invoke(v, ["remove", "1"], listed.file);
    SessionRemove(v);
    SessionRelist(v);
  }

  // ---------------------------------------------------------------- the two copies

  /** Two files that load alike give commands that end alike, read and
      write alike, and write the same list. */
  lemma LoadsAlike(v: Variant, command: string, rest: seq<string>, f1: FileState, f2: FileState)
    requires Decode(v, f1) == Decode(v, f2)
    ensures var e1 := CommandEffect(v, command, rest, f1);
      var e2 := CommandEffect(v, command, rest, f2);
      e1.result == e2.result && e1.loaded == e2.loaded && e1.saved == e2.saved &&
      (e1.saved ==> e1.file == e2.file)
  {
    if command == "add" {
      AddAlike(v, rest, f1, f2);
    } else if command == "list" {
      ListAlike(v, f1, f2);
    } else if command == "done" {
      DoneAlike(v, rest, f1, f2);
    } else if command == "remove" {
      RemoveAlike(v, rest, f1, f2);
    }
  }

  /** Two effects that differ at most in the file they leave unwritten. */
  predicate Alike(e1: Effect, e2: Effect)
  {
    e1.result == e2.result && e1.loaded == e2.loaded && e1.saved == e2.saved &&
    (e1.saved ==> e1.file == e2.file)
  }

  lemma AddAlike(v: Variant, rest: seq<string>, f1: FileState, f2: FileState)
    requires Decode(v, f1) == Decode(v, f2)
    ensures Alike(AddEffect(v, rest, f1), AddEffect(v, rest, f2))
  {
  }

  lemma ListAlike(v: Variant, f1: FileState, f2: FileState)
    requires Decode(v, f1) == Decode(v, f2)
    ensures Alike(ListEffect(v, f1), ListEffect(v, f2))
  {
  }

  lemma DoneAlike(v: Variant, rest: seq<string>, f1: FileState, f2: FileState)
    requires Decode(v, f1) == Decode(v, f2)
    ensures Alike(DoneEffect(v, rest, f1), DoneEffect(v, rest, f2))
  {
  }

  lemma RemoveAlike(v: Variant, rest: seq<string>, f1: FileState, f2: FileState)
    requires Decode(v, f1) == Decode(v, f2)
    ensures Alike(RemoveEffect(v, rest, f1), RemoveEffect(v, rest, f2))
  {
  }

  /** On a `null` document `TodoCliClear` works as on an empty list, while
      every command of `TodoCliBugs` that reads the store fails with 1 and
      leaves the file as it was. */
  lemma NullDocument(args: seq<string>)
    ensures var c := Invoke(Clear, args, Present(JsonNull));
      var e := Invoke(Clear, args, Present(JsonList([])));
      c.result == e.result && c.saved == e.saved && (c.saved ==> c.file == e.file)
    ensures var b := Invoke(Bugs, args, Present(JsonNull));
      b.loaded ==> b.result.code == 1 && |b.result.out| == 1 && b.result.out[0].Failed? &&
                   b.file == Present(JsonNull)
  {
    if |args| > 0 {
      var command := ToLowerInvariant(args[0]);
      LoadsAlike(Clear, command, args[1..], Present(JsonNull), Present(JsonList([])));
      assert Decode(Bugs, Present(JsonNull)) == NullList;
    }
  }

  /** Apart from the `null` document and the extra demo verb, the two copies
      give the same exit code, the same store access and the same file. */
  lemma CopiesAgree(args: seq<string>, file: FileState)
    requires file != Present(JsonNull)
    requires |args| > 0 ==> ToLowerInvariant(args[0]) != "exceptions-demo"
    ensures var c := Invoke(Clear, args, file);
      var b := Invoke(Bugs, args, file);
      c.result.code == b.result.code && c.loaded == b.loaded && c.saved == b.saved && c.file == b.file
  {
    DecodeVariants(file);
    if |args| > 0 {
      VariantsAgree(ToLowerInvariant(args[0]), args[1..], file);
    }
  }

  lemma VariantsAgree(command: string, rest: seq<string>, file: FileState)
    requires Decode(Clear, file) == Decode(Bugs, file) && command != "exceptions-demo"
    ensures var c := CommandEffect(Clear, command, rest, file);
      var b := CommandEffect(Bugs, command, rest, file);
      c.result.Raised? == b.result.Raised? &&
      (c.result.Raised? ==> c.result == b.result) &&
      (c.result.Returned? ==> c.result.code == b.result.code) &&
      c.loaded == b.loaded && c.saved == b.saved && c.file == b.file
  {
    if command == "add" {
      assert AddEffect(Clear, rest, file) == AddEffect(Bugs, rest, file);
    } else if command == "list" {
      assert ListEffect(Clear, file) == ListEffect(Bugs, file);
    } else if command == "done" {
      assert DoneEffect(Clear, rest, file) == DoneEffect(Bugs, rest, file);
    } else if command == "remove" {
      assert RemoveEffect(Clear, rest, file) == RemoveEffect(Bugs, rest, file);
    } else {
      assert Handles(Clear, command) == Handles(Bugs, command);
    }
  }

  /** `TodoCliBugs` lists `cpu-demo` in its usage text but has no case for
      it: the verb is reported as unknown and gives 1 without store access. */
  lemma CpuDemoUnhandled(rest: seq<string>, file: FileState)
    ensures "cpu-demo" in Advertised(Bugs)
    ensures Invoke(Bugs, ["cpu-demo"] + rest, file) ==
            Effect(Returned(1, [UnknownVerb("cpu-demo"), Usage(Advertised(Bugs))]), false, false, file)
  {
    assert ToLowerInvariant("cpu-demo") == "cpu-demo";
  }

  /** `exceptions-demo` runs in `TodoCliBugs` only; `TodoCliClear` reports it
      as unknown. Neither touches the store. */
  lemma ExceptionsDemoOnlyInBugs(rest: seq<string>, file: FileState)
    ensures Invoke(Bugs, ["exceptions-demo"] + rest, file) ==
            Effect(Returned(0, [DemoFinished("exceptions-demo")]), false, false, file)
    ensures Invoke(Clear, ["exceptions-demo"] + rest, file) ==
            Effect(Returned(1, [UnknownVerb("exceptions-demo"), Usage(Advertised(Clear))]), false, false, file)
  {
    assert ToLowerInvariant("exceptions-demo") == "exceptions-demo";
  }
}
