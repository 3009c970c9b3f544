/** The command dispatcher of `Program`: `Main` picks a verb, the `Run...`
    method for that verb checks its arguments, loads the list, changes it in
    place and saves it. Each method is proved against a function that says
    what the command does to the store; `Invoke` is that function for a whole
    run of the program. */
module Commands {
  import opened Wrappers
  import opened Strings
  import opened Tasks
  import opened Ordering
  import opened Listing
  import opened TaskLists
  import opened Repository

  /** What the program writes, one console line (or block) each. */
  datatype Message =
    | Usage(verbs: seq<string>)      // the usage text, naming these verbs
    | UnknownVerb(command: string)   // "unknown command" on the error stream
    | MissingText                    // `add` without text
    | Added(id: int32)
    | EmptyList                      // `list` on an empty list
    | Line(text: string)             // one line of `list`
    | NeedNumericId                  // `done`/`remove` without a numeric id
    | NotFound(id: int32)
    | MarkedDone(id: int32)
    | Removed(id: int32)
    | Failed(e: Exception)           // the message `Main`'s catch prints
    | DemoFinished(verb: string)     // a demo verb ran to its end

  /** How a `Run...` method ends: it returns an exit code, or it throws. */
  datatype Completion = Returned(code: int, out: seq<Message>) | Raised(e: Exception)

  /** What a command does: how it ends, whether it loaded and saved the
      store, and the file it leaves. */
  datatype Effect = Effect(result: Completion, loaded: bool, saved: bool, file: FileState)

  /** A method run agrees with an effect: same completion, same file, and a
      load and a save exactly when the effect has them. */
  ghost predicate Performs(e: Effect, c: Completion, file: FileState, loads: int, saves: int)
  {
    e.result == c && e.file == file &&
    loads == (if e.loaded then 1 else 0) && saves == (if e.saved then 1 else 0)
  }

  /** The verbs the usage text lists. */
  function Advertised(v: Variant): (verbs: seq<string>)
    ensures "add" in verbs && "list" in verbs && "done" in verbs && "remove" in verbs
    ensures "cpu-demo" in verbs <==> v == Bugs
  {
    match v
    case Clear => ["add", "list", "done", "remove", "leak-demo"]
    case Bugs => ["add", "list", "done", "remove", "leak-demo", "cpu-demo", "exceptions-demo"]
  }

  /** The verbs the `switch` in `Main` has a case for. */
  predicate Handles(v: Variant, command: string)
    ensures Handles(v, command) ==> command in Advertised(v)
    ensures command in Advertised(v) && command != "cpu-demo" ==> Handles(v, command)
  {
    command in {"add", "list", "done", "remove", "leak-demo"} ||
    (v == Bugs && command == "exceptions-demo")
  }

  /** The id argument of `done` and `remove`: the first argument, if it parses. */
  function ParseId(args: seq<string>): Option<int32>
  {
    if |args| == 0 then None else ParseInt(args[0])
  }

  /** The lines `list` prints for a non-empty list: one per item, in the
      order of `OrderBy(t => t.Id)`. */
  function ListLines(items: seq<TodoItem>): (lines: seq<Message>)
    ensures |lines| == |items|
  {
    LinesBefore(SortById(items), |items|)
  }

  /** The lines printed for the items of `sorted` before position `j`. */
  function LinesBefore(sorted: seq<TodoItem>, j: nat): (lines: seq<Message>)
    requires j <= |sorted|
    ensures |lines| == j
  {
    if j == 0 then [] else LinesBefore(sorted, j - 1) + [Line(FormatLine(sorted[j - 1]))]
  }

  /** Line `i` of the listing shows item `i` of the sorted list. */
  lemma {:induction false} LinesBeforeAt(sorted: seq<TodoItem>, j: nat, i: nat)
    requires i < j <= |sorted|
    ensures LinesBefore(sorted, j)[i] == Line(FormatLine(sorted[i]))
  {
    var last := Line(FormatLine(sorted[j - 1]));
    var front := LinesBefore(sorted, j - 1);
    assert LinesBefore(sorted, j) == front + [last];
    if i < j - 1 {
      LinesBeforeAt(sorted, j - 1, i);
      assert (front + [last])[i] == front[i];
    }
  }

  // ---------------------------------------------------------------- one effect per verb

  /** What every command keeps to: it saves only after it has loaded and
      only when it returns 0, it leaves the file alone when it does not save,
      and when it returns, the exit code is 0 or 1. */
  predicate Disciplined(e: Effect, file: FileState)
  {
    (e.saved ==> e.loaded && e.result.Returned? && e.result.code == 0) &&
    (!e.saved ==> e.file == file) &&
    (e.result.Returned? ==> e.result.code == 0 || e.result.code == 1)
  }

  function AddEffect(v: Variant, args: seq<string>, file: FileState): (e: Effect)
    ensures Disciplined(e, file)
  {
    if |args| == 0 then Effect(Returned(1, [MissingText]), false, false, file)
    else
      match Decode(v, file)
      case Threw(e) => Effect(Raised(e), true, false, file)
      case NullList => Effect(Raised(NullReference), true, false, file)
      case Items(items) =>
        var t := TodoItem(NextId(items), JoinWithSpace(args), false);
        Effect(Returned(0, [Added(t.id)]), true, true, Present(JsonList(items + [t])))
  }

  function ListEffect(v: Variant, file: FileState): (e: Effect)
    ensures Disciplined(e, file)
  {
    match Decode(v, file)
    case Threw(e) => Effect(Raised(e), true, false, file)
    case NullList => Effect(Raised(NullReference), true, false, file)
    case Items(items) =>
      Effect(Returned(0, if |items| == 0 then [EmptyList] else ListLines(items)), true, false, file)
  }

  function DoneEffect(v: Variant, args: seq<string>, file: FileState): (e: Effect)
    ensures Disciplined(e, file)
  {
    match ParseId(args)
    case None => Effect(Returned(1, [NeedNumericId]), false, false, file)
    case Some(id) =>
      match Decode(v, file)
      case Threw(e) => Effect(Raised(e), true, false, file)
      case NullList => Effect(Raised(ArgumentNull), true, false, file)
      case Items(items) =>
        if !HasId(items, id) then Effect(Returned(1, [NotFound(id)]), true, false, file)
        else Effect(Returned(0, [MarkedDone(id)]), true, true, Present(JsonList(MarkFirstDone(items, id))))
  }

  function RemoveEffect(v: Variant, args: seq<string>, file: FileState): (e: Effect)
    ensures Disciplined(e, file)
  {
    match ParseId(args)
    case None => Effect(Returned(1, [NeedNumericId]), false, false, file)
    case Some(id) =>
      match Decode(v, file)
      case Threw(e) => Effect(Raised(e), true, false, file)
      case NullList => Effect(Raised(NullReference), true, false, file)
      case Items(items) =>
        if !HasId(items, id) then Effect(Returned(1, [NotFound(id)]), true, false, file)
        else Effect(Returned(0, [Removed(id)]), true, true, Present(JsonList(WithoutId(items, id))))
  }

  /** `UnknownCommand`: reports the verb, prints the usage text, exit code 1. */
  function UnknownCommand(v: Variant, command: string): (c: Completion)
    ensures c.Returned? && c.code == 1
    ensures UnknownVerb(command) in c.out && Usage(Advertised(v)) in c.out
  {
    Returned(1, [UnknownVerb(command), Usage(Advertised(v))])
  }

  /** The `switch` of `Main`, before its `catch`. The demo verbs touch no
      store and end with exit code 0; what they do meanwhile is not modelled. */
  function CommandEffect(v: Variant, command: string, rest: seq<string>, file: FileState): (e: Effect)
    ensures Disciplined(e, file)
  {
    if command == "add" then AddEffect(v, rest, file)
    else if command == "list" then ListEffect(v, file)
    else if command == "done" then DoneEffect(v, rest, file)
    else if command == "remove" then RemoveEffect(v, rest, file)
    else if Handles(v, command) then Effect(Returned(0, [DemoFinished(command)]), false, false, file)
    else Effect(UnknownCommand(v, command), false, false, file)
  }

  /** One run of the program with the given arguments on the given file.
      Every run ends in exit code 0 or 1, never in an unhandled exception; a
      run saves only after loading, and only when it succeeds; a run that
      does not save leaves the file as it was. */
  function Invoke(v: Variant, args: seq<string>, file: FileState): (e: Effect)
    ensures e.result.Returned? && (e.result.code == 0 || e.result.code == 1)
    ensures e.saved ==> e.loaded && e.result.code == 0
    ensures !e.saved ==> e.file == file
    ensures e.result.code == 1 ==> e.file == file
  {
    if |args| == 0 then Effect(Returned(1, [Usage(Advertised(v))]), false, false, file)
    else Catch(CommandEffect(v, ToLowerInvariant(args[0]), args[1..], file))
  }

  /** The `catch` of `Main`: an exception becomes its message and exit code 1. */
  function Catch(e: Effect): (r: Effect)
    ensures r.result.Returned? && r.loaded == e.loaded && r.saved == e.saved && r.file == e.file
    ensures e.result.Returned? ==> r == e
    ensures e.result.Raised? ==> r.result == Returned(1, [Failed(e.result.e)])
  {
    match e.result
    case Raised(x) => e.(result := Returned(1, [Failed(x)]))
    case Returned(_, _) => e
  }

  // ---------------------------------------------------------------- the methods

  method Load(v: Variant, store: Store) returns (r: Loaded)
    modifies store
    ensures r == Decode(v, old(store.file))
    ensures store.file == old(store.file)
    ensures store.loads == old(store.loads) + 1 && store.saves == old(store.saves)
  {
    if v == Clear {
      r := store.LoadClear();
    } else {
      r := store.LoadBugs();
    }
  }

  /** `RunAdd`. */
  method RunAdd(v: Variant, args: seq<string>, store: Store) returns (c: Completion)
    modifies store
    ensures Performs(AddEffect(v, args, old(store.file)), c, store.file,
                     store.loads - old(store.loads), store.saves - old(store.saves))
  {
    if |args| == 0 {
      return Returned(1, [MissingText]);
    }
    var text := JoinWithSpace(args);
    var loaded := Load(v, store);
    match loaded
    case Threw(e) => c := Raised(e);
    case NullList => c := Raised(NullReference);  // `items.Count` on null
    case Items(initial) =>
      var items := new TaskList(initial);
      var nextId := NextId(items.items);
      items.Add(TodoItem(nextId, text, false));
      store.Save(items.items);
      c := Returned(0, [Added(nextId)]);
  }

  /** `RunList`: reads the list, never saves it. */
  method RunList(v: Variant, store: Store) returns (c: Completion)
    modifies store
    ensures Performs(ListEffect(v, old(store.file)), c, store.file,
                     store.loads - old(store.loads), store.saves - old(store.saves))
  {
    var loaded := Load(v, store);
    match loaded
    case Threw(e) => c := Raised(e);
    case NullList => c := Raised(NullReference);  // `items.Count` on null
    case Items(items) =>
      if |items| == 0 {
        return Returned(0, [EmptyList]);
      }
      var out := PrintLines(SortById(items));
      c := Returned(0, out);
  }

  /** The `foreach` of `RunList`: one line per item, in the given order. */
  method PrintLines(sorted: seq<TodoItem>) returns (out: seq<Message>)
    ensures out == LinesBefore(sorted, |sorted|)
  {
    out := [];
    for j := 0 to |sorted|
      invariant out == LinesBefore(sorted, j)
    {
      out := out + [Line(FormatLine(sorted[j]))];
    }
  }

  /** `RunDone`. */
  method RunDone(v: Variant, args: seq<string>, store: Store) returns (c: Completion)
    modifies store
    ensures Performs(DoneEffect(v, args, old(store.file)), c, store.file,
                     store.loads - old(store.loads), store.saves - old(store.saves))
  {
    if |args| == 0 || ParseInt(args[0]).None? {
      return Returned(1, [NeedNumericId]);
    }
    var id := ParseInt(args[0]).value;
    var loaded := Load(v, store);
    match loaded
    case Threw(e) => c := Raised(e);
    case NullList => c := Raised(ArgumentNull);  // `FirstOrDefault` on null
    case Items(initial) =>
      var items := new TaskList(initial);
      var i := items.FirstIndexOf(id);
      if i < 0 {
        return Returned(1, [NotFound(id)]);
      }
      assert FirstIndex(initial, id) == Some(i);
      items.SetDone(i);
      assert items.items == MarkFirstDone(initial, id);
      store.Save(items.items);
      c := Returned(0, [MarkedDone(id)]);
  }

  /** `RunRemove`. */
  method RunRemove(v: Variant, args: seq<string>, store: Store) returns (c: Completion)
    modifies store
    ensures Performs(RemoveEffect(v, args, old(store.file)), c, store.file,
                     store.loads - old(store.loads), store.saves - old(store.saves))
  {
    if |args| == 0 || ParseInt(args[0]).None? {
      return Returned(1, [NeedNumericId]);
    }
    var id := ParseInt(args[0]).value;
    var loaded := Load(v, store);
    match loaded
    case Threw(e) => c := Raised(e);
    case NullList => c := Raised(NullReference);  // `items.RemoveAll` on null
    case Items(initial) =>
      var items := new TaskList(initial);
      var removed := items.RemoveAll(id);
      if removed == 0 {
        return Returned(1, [NotFound(id)]);
      }
      store.Save(items.items);
      c := Returned(0, [Removed(id)]);
  }

  /** `Main`: no arguments print the usage and give 1; otherwise the first
      argument, lower-cased, selects the command, and an exception from the
      command is caught and turned into exit code 1. */
  method Dispatch(v: Variant, args: seq<string>, store: Store) returns (code: int, out: seq<Message>)
    modifies store
    ensures Performs(Invoke(v, args, old(store.file)), Returned(code, out), store.file,
                     store.loads - old(store.loads), store.saves - old(store.saves))
  {
    if |args| == 0 {
      return 1, [Usage(Advertised(v))];
    }
    var command := ToLowerInvariant(args[0]);
    var rest := args[1..];
    var c: Completion;
    if command == "add" {
      c := RunAdd(v, rest, store);
    } else if command == "list" {
      c := RunList(v, store);
    } else if command == "done" {
      c := RunDone(v, rest, store);
    } else if command == "remove" {
      c := RunRemove(v, rest, store);
    } else if Handles(v, command) {
      // `leak-demo`, and `exceptions-demo` in `TodoCliBugs`
      c := Returned(0, [DemoFinished(command)]);
    } else {
      c := UnknownCommand(v, command);
    }
    match c
    case Raised(e) => code, out := 1, [Failed(e)];
    case Returned(k, o) => code, out := k, o;
  }
}
