# TodoCli in Dafny

TodoCli is a small command-line to-do manager. `todo add <text>` appends a task, `todo list`
prints the tasks by ascending id, `todo done <id>` marks a task done and `todo remove <id>`
deletes it. The list lives in `todo.json` next to the executable. A command that changes the list reads
the whole file and writes the whole list back; `list` only reads it, and a command that stops
on a bad argument, a missing id or an exception writes nothing. The repository holds two copies of the program. `TodoCliClear` is the
clean one. `TodoCliBugs` is a lab copy with deliberate defects: its repository can hand a
`null` list to the commands, it has an extra `exceptions-demo` verb, and its usage text
advertises a `cpu-demo` verb that the dispatcher does not know.

This project models both copies in one Dafny model. `Variant` (`Clear` or `Bugs`) selects the
places where they differ.

- `strings.dfy` holds the .NET primitives the tool uses: `ToLowerInvariant`,
  `string.Join(' ', ...)`, `int.TryParse`, `int.ToString()` and `PadLeft`. The C# `int` is the
  subset type `int32`.
- `tasks.dfy` holds the item record and the pure rules on a list of items: the next id
  (`Max + 1`, with the unchecked 32-bit wrap-around), "mark the first match done" and
  "remove every match".
- `ordering.dfy` models `OrderBy(t => t.Id)` as a stable insertion sort. It proves the sort
  sorted, a permutation and stable, and proves that it is the only stable sort.
- `listing.dfy` models the line `list` prints for an item and reads it back.
- `task_list.dfy` holds the in-memory `List<TodoItem>` as a class that the commands change in
  place: `Add`, `FirstOrDefault`, setting `IsDone`, and `RemoveAll`.
- `repository.dfy` models `TodoRepository`. The file `todo.json` is a `Store` object whose
  state is what deserialising the file gives: missing, a list, the literal `null`, or
  something that does not parse. There is one `Load` per copy, and `Save` replaces the whole
  file.
- `commands.dfy` holds `Main` and the `Run...` methods as imperative methods over a `Store`.
  Each method is proved against a pure function of the file it starts from: `AddEffect`,
  `ListEffect`, `DoneEffect`, `RemoveEffect`, and `Invoke` for a whole run. The function
  states the exit code or exception, the console messages, whether the store was read and
  written, and the file left behind.
- `properties.dfy` states what runs of the program promise, as lemmas over `Invoke`.

Console output is modelled as a sequence of `Message` values, one per line or block the
program writes. The listing lines carry their exact text, with `-` as the minus sign. The fixed messages carry their
arguments, not their (Russian) wording.

The tool's documentation calls the text of a task non-empty. The code only checks that at
least one word follows `add`, so `add ""` stores an item with empty text. The model follows
the code: `AddEffect` requires only `|args| > 0`.

## Model

| member | source | states |
|---|---|---|
| Strings.ToLowerInvariant | TodoCliClear/Program.cs:59 | the result has the input's length and contains no ASCII capital; every ASCII capital becomes its lower-case letter (code + 32), and every other character is kept |
| Strings.LowerSameIgnoringCase | TodoCliClear/Program.cs:59 | two words that differ only in the case of ASCII letters lower-case to the same verb |
| Strings.ToLowerIdempotent | TodoCliClear/Program.cs:59 | lower-casing a lower-cased verb changes nothing |
| Strings.JoinWithSpace | TodoCliClear/Program.cs:111 | joining no words gives ""; the result's length is the words' lengths plus one separator between each pair; the result starts with the first word |
| Strings.SplitJoin | TodoCliClear/Program.cs:111 | if no word contains a space, splitting the joined text at spaces gives back exactly the argument words |
| Strings.NatToStringDigits | TodoCliClear/Program.cs:134 | `ToString()` of a non-negative number writes only decimal digits, without a leading zero, and the digits denote the number |
| Strings.IntToString | TodoCliClear/Program.cs:134 | a printed `int` is never empty and starts with `-` exactly when it is negative; its digits are `NatToStringDigits` and it parses back by `IntToStringParses` |
| Strings.ParseInt | TodoCliClear/Program.cs:142 | `int.TryParse` gives a negative value only when the argument contains a `-`; with `IntToStringParses` and `ParseIntNeedsDigit` it accepts every printed `int` and rejects an argument without digits |
| Strings.PadLeft | TodoCliClear/Program.cs:134 | `{x,3}` gives a text of width 3, or the text itself when it is already that wide; `PadLeftShape` states that only spaces are added in front |
| Strings.IntToStringNoSpace | TodoCliClear/Program.cs:134 | a printed `int` contains no white space |
| Strings.IntToStringParses | TodoCliClear/Program.cs:142 | `int.TryParse` of a printed `int` succeeds and gives that `int`, for every `int` including negative ones and `int.MinValue` |
| Strings.ParseIntNeedsDigit | TodoCliClear/Program.cs:142 | `int.TryParse` fails on an argument without a decimal digit |
| Strings.PadLeftShape | TodoCliClear/Program.cs:134 | `PadLeft` only adds spaces in front, and the padded text ends with the original text |
| Tasks.MaxId | TodoCliClear/Program.cs:113 | `items.Max(t => t.Id)` is at least every id and is the id of some item |
| Tasks.Increment32 | TodoCliClear/Program.cs:113 | unchecked `x + 1` is the `int` congruent to `x + 1` modulo 2^32 (two's-complement wrap-around) |
| Tasks.NextId | TodoCliClear/Program.cs:113 | the new id is 1 for an empty list. While every id is below `int.MaxValue`, it is above every id and one more than an existing id. When some item has id `int.MaxValue`, it is `int.MinValue` |
| Tasks.CountId | TodoCliClear/Program.cs:171-172 | the number `RemoveAll` reports is at most the list's length, and it is 0 exactly when no item has the id |
| Tasks.WithoutId | TodoCliClear/Program.cs:171 | no item left has the id, and exactly `CountId` items are gone |
| Tasks.WithoutIdIsSubsequence | TodoCliClear/Program.cs:171 | the items `RemoveAll` keeps are a subsequence of the list: same order, nothing added |
| Tasks.WithoutIdCounts | TodoCliClear/Program.cs:171 | every item with another id is kept as often as it occurred; items with the id occur 0 times |
| Tasks.WithoutAbsentId | TodoCliClear/Program.cs:171-176 | removing an id no item has leaves the list unchanged |
| Tasks.WithoutIdIdempotent | TodoCliClear/Program.cs:171 | removing an id twice removes as much as removing it once |
| Tasks.FirstIndex | TodoCliClear/Program.cs:149 | `FirstOrDefault(t => t.Id == id)` finds nothing exactly when no item has the id; otherwise it finds an item with the id and no earlier item has it |
| Tasks.MarkFirstDone | TodoCliClear/Program.cs:149-156 | only the first item with the id gets `IsDone = true`; every other item and every other field is kept, and the list keeps its length |
| Tasks.MarkFirstDoneKeepsIds | TodoCliClear/Program.cs:149-156 | marking done keeps every id, so the same item is found again |
| Tasks.MarkFirstDoneIdempotent | TodoCliClear/Program.cs:149-156 | marking the same id done twice gives the list that marking once gives |
| Ordering.Insert | TodoCliClear/Program.cs:131 | inserting adds exactly the one item: the result has one more element and the multiset grows by that item |
| Ordering.InsertSorted | TodoCliClear/Program.cs:131 | inserting into a list sorted by id keeps it sorted |
| Ordering.SortById | TodoCliClear/Program.cs:131 | `OrderBy(t => t.Id)` returns the same items (as a multiset), in ascending id order |
| Ordering.SortByIdStable | TodoCliClear/Program.cs:131 | items that share an id keep their stored order |
| Ordering.StableSortUnique | TodoCliClear/Program.cs:131 | any list sorted by id, with the same items per id in the same order, equals `SortById`, so the listing order is fully determined |
| Listing.Marker | TodoCliClear/Program.cs:133 | the status is three characters: `[x]` for a done item, `[ ]` otherwise |
| Listing.FormatLine | TodoCliClear/Program.cs:133-134 | a listing line is at least the 3-wide id column, the status and two separators long, and it ends with the task's full text |
| Listing.FormatLineParses | TodoCliClear/Program.cs:133-134 | every listing line can be read back into the item's id, done flag and full text |
| Listing.FormatLineColumns | TodoCliClear/Program.cs:134 | for ids from -99 to 999, the marker is at columns 4-6 and the text starts at column 8 on every line |
| TaskLists.TaskList.Add | TodoCliClear/Program.cs:115 | `items.Add` appends the item at the end and changes nothing else |
| TaskLists.TaskList.FirstIndexOf | TodoCliClear/Program.cs:149-150 | the scan returns -1 exactly when no item has the id; otherwise it returns the position of the first item with the id |
| TaskLists.TaskList.SetDone | TodoCliClear/Program.cs:156 | `task.IsDone = true` changes only that item's done flag |
| TaskLists.TaskList.RemoveAll | TodoCliClear/Program.cs:171 | the list becomes `WithoutId` of the old list, and the returned count is `CountId` of the old list |
| Repository.Decode | TodoCliClear/Program.cs:29-40 | `Load` throws exactly on a file that does not deserialise, gives an empty list for a missing file, and only the lab copy can give a null list |
| Repository.DecodeVariants | TodoCliBugs/Program.cs:31-43 | the two `Load`s agree on every file except the `null` document. Only the lab copy returns a null list, and only for that document. Both throw exactly on a file that does not parse |
| Repository.SaveLoadRoundTrip | TodoCliClear/Program.cs:42-46 | after `Save(items)`, `Load` of either copy returns `items` |
| Repository.Store.LoadClear | TodoCliClear/Program.cs:29-40 | a missing file or a `null` document gives an empty list, a list document gives its items, and anything else throws. The file is not changed, and the load is counted |
| Repository.Store.LoadBugs | TodoCliBugs/Program.cs:31-43 | as `LoadClear`, except that a `null` document gives a null list, and only that document does |
| Repository.Store.Save | TodoCliClear/Program.cs:42-46 | the file then holds exactly the saved list, which either `Load` returns; the save is counted |
| Commands.Advertised | TodoCliClear/Program.cs:86-94 | the usage text lists `add`, `list`, `done` and `remove`, and lists `cpu-demo` exactly in the lab copy |
| Commands.Handles | TodoCliBugs/Program.cs:70-79 | every verb the `switch` has a case for is advertised, and every advertised verb except `cpu-demo` has a case |
| Commands.ListLines | TodoCliClear/Program.cs:131-135 | `list` prints one line per item |
| Commands.LinesBeforeAt | TodoCliClear/Program.cs:131-135 | line `i` of the listing is the formatted line of item `i` of the sorted list |
| Commands.AddEffect | TodoCliClear/Program.cs:103-120 | `add` saves only after loading and only when it returns 0, and leaves the file alone when it does not save. When it returns rather than raising, the exit code is 0 or 1 |
| Commands.ListEffect | TodoCliClear/Program.cs:122-138 | the same discipline for `list`, which never saves |
| Commands.DoneEffect | TodoCliClear/Program.cs:140-160 | the same discipline for `done` |
| Commands.RemoveEffect | TodoCliClear/Program.cs:162-181 | the same discipline for `remove` |
| Commands.UnknownCommand | TodoCliClear/Program.cs:96-101 | an unknown verb is reported, the usage is printed, and the exit code is 1 |
| Commands.CommandEffect | TodoCliClear/Program.cs:64-72 | every branch of the `switch` keeps that discipline |
| Commands.Catch | TodoCliClear/Program.cs:74-78 | the `catch` turns an exception into its message and exit code 1; store access and the file are unchanged |
| Commands.Invoke | TodoCliClear/Program.cs:51-79 | every run exits with 0 or 1 and never with an unhandled exception; a run saves only after loading and only when it gives 0; a run that does not save, or that gives 1, leaves the file as it was |
| Commands.Load | TodoCliClear/Program.cs:29-40 | the copy's `Load` returns what its file decodes to, leaves the file alone and reads it once |
| Commands.RunAdd | TodoCliClear/Program.cs:103-120 | the method's exit code or exception, its messages, its load and save counts and the file it leaves are those of `AddEffect` |
| Commands.RunList | TodoCliClear/Program.cs:122-138 | the same for `list`, against `ListEffect` |
| Commands.PrintLines | TodoCliClear/Program.cs:131-135 | the loop prints exactly the formatted lines of the sorted items, in order |
| Commands.RunDone | TodoCliClear/Program.cs:140-160 | the same for `done`, against `DoneEffect` |
| Commands.RunRemove | TodoCliClear/Program.cs:162-181 | the same for `remove`, against `RemoveEffect` |
| Commands.Dispatch | TodoCliClear/Program.cs:51-79 | a whole run of `Main` does what `Invoke` says, including its store access |
| Properties.NoArguments | TodoCliClear/Program.cs:53-57 | without arguments: usage, exit code 1, no store access |
| Properties.VerbCaseInsensitive | TodoCliClear/Program.cs:59 | a verb typed in any case runs as its lower-case spelling |
| Properties.SameVerbAnyCase | TodoCliClear/Program.cs:59-72 | two spellings of a verb that differ only in the case of ASCII letters give the same result, store access and file |
| Properties.UnknownVerbTouchesNothing | TodoCliClear/Program.cs:96-101 | a verb the `switch` has no case for gives 1 with the unknown-verb message and the usage, and does not read or write the store |
| Properties.AddNeedsText | TodoCliClear/Program.cs:105-109 | `add` without text gives 1 before the store is read |
| Properties.IdArgumentChecked | TodoCliClear/Program.cs:142-146 | `done` or `remove` without an argument that `int.TryParse` accepts gives 1 before the store is read |
| Properties.UnparseableFileKept | TodoCliClear/Program.cs:36-37 | a file that does not deserialise is never overwritten; every command that reads it gives 1 with the error message |
| Properties.AddAppends | TodoCliClear/Program.cs:111-118 | `add` appends one not-done item with the joined text and `NextId`, keeps the earlier items, saves and gives 0. While all ids are below `int.MaxValue`, the new id is not in use |
| Properties.FreedIdReused | TodoCliClear/Program.cs:113 | after adding and then removing the newest item, the next `add` gives out the same id again |
| Properties.DoneMarksFirst | TodoCliClear/Program.cs:140-160 | `done id` marks only the first item with the id, saves and gives 0; with no such item it gives 1 and does not save |
| Properties.DoneTwice | TodoCliClear/Program.cs:140-160 | running the same `done` twice gives the exit code and file of running it once |
| Properties.RemoveDropsAll | TodoCliClear/Program.cs:162-181 | `remove id` drops every item with the id and keeps all others in order and multiplicity, saves and gives 0; with no such item it gives 1 and does not save |
| Properties.RemoveTwice | TodoCliClear/Program.cs:162-181 | a second `remove` of the same id gives 1 and leaves the file as the first left it |
| Properties.ListShowsSorted | TodoCliClear/Program.cs:122-138 | `list` gives 0 and never saves. No items prints the empty-list message. Otherwise it prints one line per item, and line `i` reads back as item `i` in id order |
| Properties.ListTwice | TodoCliClear/Program.cs:122-138 | listing twice gives the same result both times |
| Properties.DoneOnlyItem | TodoCliClear/Program.cs:140-160 | `done` of the only item's id marks that item and saves |
| Properties.RemoveOnlyItem | TodoCliClear/Program.cs:162-181 | `remove` of the only item's id leaves an empty list |
| Properties.Session | TodoCliClear/Program.cs:51-181 | from no file: `add write spec` gives id 1, `done 1` marks it, `list` prints `  1 [x] write spec`, `remove 1` empties the list, and `list` then prints the empty-list message |
| Properties.LoadsAlike | TodoCliClear/Program.cs:39 | two files that load to the same list give the same result and the same store access; when the command saves, it writes the same file for both |
| Properties.NullDocument | TodoCliBugs/Program.cs:39-42 | on a `null` document, `TodoCliClear` gives the result and saves of an empty list, and writes the same file when it saves. Every store-reading command of `TodoCliBugs` gives 1 with one error message and leaves the file as it was |
| Properties.CopiesAgree | TodoCliBugs/Program.cs:57-86 | apart from the `null` document and `exceptions-demo`, both copies give the same exit code and store access and leave the same file |
| Properties.VariantsAgree | TodoCliBugs/Program.cs:70-79 | for a file both copies load alike, every verb except `exceptions-demo` raises the same exception or returns the same exit code in both copies, with the same store access and file |
| Properties.CpuDemoUnhandled | TodoCliBugs/Program.cs:70-104 | `TodoCliBugs` advertises `cpu-demo`, but running it is an unknown verb: exit code 1, no store access |
| Properties.ExceptionsDemoOnlyInBugs | TodoCliBugs/Program.cs:77 | `exceptions-demo` gives 0 in `TodoCliBugs` and is an unknown verb, with exit code 1, in `TodoCliClear`; neither touches the store |

## Left out

- File and JSON I/O. The file is modelled by what `JsonSerializer.Deserialize` makes of it (missing, a list, `null`, unparseable). `Save` writes the list itself, so the serialiser round trip holds by construction. Formatting, indentation and the file path are not modelled.
- I/O failures: a read or write that throws (permissions, a full disk, a file locked by another process). Any such exception would end in the same `catch` and exit code 1.
- JSON lists that contain `null` entries: the `t => t.Id` lambdas would then throw. The model's items are always present.
- Items whose `Text` is `null`: such an item lists with an empty text and is saved back with `null`. The model's text is always a string.
- Concurrent runs sharing one `todo.json`: each command is modelled as one atomic load and save.
- The console text. Messages are values (`Added(id)`, `NotFound(id)`, ...), not the Russian strings, and stdout and stderr are not told apart. `PrintHeader` in `TodoCliBugs` ignores its title; that changes only the usage text.
- The bodies of `leak-demo` and `exceptions-demo`: memory allocation, `Thread.Sleep`, the busy loop, `Environment.TickCount64`, the thrown and caught `InvalidOperationException`s and the final `Console.ReadLine`. The model keeps only that these verbs exit with 0 and do not touch the store.
- Strings.ToLowerInvariant: maps ASCII capitals only. The invariant culture's lower-casing of other letters is not modelled, so a verb spelled with non-ASCII capitals that lower-case to ASCII letters is treated as unknown.
- Strings.IntToString: writes `-` as the minus sign. The interpolation `{item.Id,3}` formats with the current culture, whose negative sign can differ; that is not modelled.
- Strings.ParseInt: models `int.TryParse` with ASCII white space (space and `\t` to `\r`) around an optional sign and ASCII digits. Unicode white space, trailing NUL characters and culture-specific signs are not accepted.
- Strings.PadLeft: its postcondition states only the length. The shape (spaces in front, text unchanged) is the separate lemma `Strings.PadLeftShape`.
- The in-place update of the item object that `FirstOrDefault` returns. The model updates the list at that item's position, so aliasing of `TodoItem` objects is not modelled.
- The `BUG_FOR_LAB` markers that have no behaviour: the unused `using`, the unused local variable, the lower-case class name and the unused parameter.
