/** `TodoRepository`: the file `todo.json` next to the executable, holding the
    whole list as JSON. The file is modelled by what deserialising it gives;
    saving writes the list itself, so a save followed by a load returns the
    saved list. */
module Repository {
  import opened Tasks

  /** What `JsonSerializer.Deserialize<List<TodoItem>>` makes of the file's text. */
  datatype Document =
    | JsonList(items: seq<TodoItem>)  // a JSON array of items
    | JsonNull                         // the literal `null`
    | Unparseable                      // anything else: the deserialiser throws

  datatype FileState = Missing | Present(doc: Document)

  /** The exceptions a command can raise on the modelled paths. */
  datatype Exception =
    | JsonException   // the file is not a JSON list of items
    | NullReference   // a member used on the null list
    | ArgumentNull    // a LINQ operator given the null list

  /** The two copies of the tool: `TodoCliClear` and the lab copy `TodoCliBugs`. */
  datatype Variant = Clear | Bugs

  /** What `TodoRepository.Load` hands the command. */
  datatype Loaded = Items(items: seq<TodoItem>) | NullList | Threw(e: Exception)

  /** `Load` of each copy: a missing file is an empty list; `TodoCliClear`
      turns a `null` document into an empty list too, `TodoCliBugs` passes
      the null on. */
  function Decode(v: Variant, file: FileState): (r: Loaded)
    ensures r.Threw? <==> file == Present(Unparseable)
    ensures r.NullList? ==> v.Bugs?
    ensures file == Missing ==> r == Items([])
  {
    match file
    case Missing => Items([])
    case Present(JsonList(items)) => Items(items)
    case Present(JsonNull) => if v == Clear then Items([]) else NullList
    case Present(Unparseable) => Threw(JsonException)
  }

  /** The two copies load every file alike except the `null` document. */
  lemma DecodeVariants(file: FileState)
    ensures !Decode(Clear, file).NullList?
    ensures Decode(Bugs, file).NullList? <==> file == Present(JsonNull)
    ensures Decode(Clear, file) == Decode(Bugs, file) <==> file != Present(JsonNull)
    ensures Decode(Clear, file).Threw? <==> file == Present(Unparseable)
  {
  }

  /** Whatever a save writes, the next load of either copy returns. */
  lemma SaveLoadRoundTrip(v: Variant, items: seq<TodoItem>)
    ensures Decode(v, Present(JsonList(items))) == Items(items)
  {
  }

  class Store {
    var file: FileState
    /** How often the file was read and written: "no store access" is
        stated with these. */
    ghost var loads: nat
    ghost var saves: nat

    constructor (initial: FileState)
      ensures file == initial && loads == 0 && saves == 0
    {
      file := initial;
      loads, saves := 0, 0;
    }

    /** `TodoRepository.Load` of `TodoCliClear`. */
    method LoadClear() returns (r: Loaded)
      modifies this
      ensures r == Decode(Clear, old(file)) && !r.NullList?
      ensures file == old(file) && loads == old(loads) + 1 && saves == old(saves)
    {
      loads := loads + 1;
      if file == Missing {
        return Items([]);
      }
      match file.doc
      case JsonList(items) => r := Items(items);
      case JsonNull => r := Items([]);
      case Unparseable => r := Threw(JsonException);
    }

    /** `TodoRepository.Load` of `TodoCliBugs`, which may return null. */
    method LoadBugs() returns (r: Loaded)
      modifies this
      ensures r == Decode(Bugs, old(file))
      ensures r.NullList? <==> old(file) == Present(JsonNull)
      ensures file == old(file) && loads == old(loads) + 1 && saves == old(saves)
    {
      loads := loads + 1;
      if file == Missing {
        return Items([]);
      }
      match file.doc
      case JsonList(items) => r := Items(items);
      case JsonNull => r := NullList;
      case Unparseable => r := Threw(JsonException);
    }

    /** `TodoRepository.Save`: the whole file is replaced by the list. */
    method Save(items: seq<TodoItem>)
      modifies this
      ensures file == Present(JsonList(items))
      ensures Decode(Clear, file) == Items(items) && Decode(Bugs, file) == Items(items)
      ensures saves == old(saves) + 1 && loads == old(loads)
    {
      file := Present(JsonList(items));
      saves := saves + 1;
    }
  }
}
