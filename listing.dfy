/** The line `list` prints for one item: `$"{item.Id,3} {status} {item.Text}"`,
    where the status is `[x]` for a done item and `[ ]` otherwise. */
module Listing {
  import opened Wrappers
  import opened Strings
  import opened Tasks

  function Marker(isDone: bool): (m: string)
    ensures |m| == 3 && m[0] == '[' && m[2] == ']'
    ensures m[1] == (if isDone then 'x' else ' ')
  {
    if isDone then "[x]" else "[ ]"
  }

  function FormatLine(t: TodoItem): (line: string)
    ensures |line| >= 8 + |t.text| && line[|line| - |t.text|..] == t.text
  {
    PadLeft(IntToString(t.id), 3) + Fields(t)
  }

  /** What follows the id column: the status marker and the text. */
  function Fields(t: TodoItem): string
  {
    " " + Marker(t.isDone) + " " + t.text
  }

  // ---------------------------------------------------------------- reading a line back

  function DropSpaces(s: string): (r: string)
    ensures |r| <= |s|
  {
    if |s| > 0 && s[0] == ' ' then DropSpaces(s[1..]) else s
  }

  /** The position of the first space in `s`, or `|s|`. */
  function TokenEnd(s: string): (k: nat)
    ensures k <= |s|
    ensures forall i :: 0 <= i < k ==> s[i] != ' '
    ensures k < |s| ==> s[k] == ' '
  {
    if |s| == 0 || s[0] == ' ' then 0 else 1 + TokenEnd(s[1..])
  }

  /** Reads a line of the listing back into the item it shows. */
  function ParseLine(line: string): Option<TodoItem>
  {
    ParseFields(DropSpaces(line))
  }

  function ParseFields(rest: string): Option<TodoItem>
  {
    var k := TokenEnd(rest);
    match ParseInt(rest[..k])
    case None => None
    case Some(id) => ParseStatus(id, rest[k..])
  }

  function ParseStatus(id: int32, tail: string): Option<TodoItem>
  {
    if |tail| >= 5 && tail[0] == ' ' && tail[4] == ' ' && (tail[1..4] == "[x]" || tail[1..4] == "[ ]")
    then Some(TodoItem(id, tail[5..], tail[1..4] == "[x]"))
    else None
  }

  lemma {:induction false} DropPadding(pad: string, s: string)
    requires forall i :: 0 <= i < |pad| ==> pad[i] == ' '
    requires |s| > 0 && s[0] != ' '
    ensures DropSpaces(pad + s) == s
  {
    if |pad| > 0 {
      assert (pad + s)[1..] == pad[1..] + s;
      DropPadding(pad[1..], s);
    } else {
      assert pad + s == s;
    }
  }

  lemma {:induction false} TokenEndAt(word: string, tail: string)
    requires forall i :: 0 <= i < |word| ==> word[i] != ' '
    requires |tail| > 0 && tail[0] == ' '
    ensures TokenEnd(word + tail) == |word|
  {
    if |word| > 0 {
      assert (word + tail)[1..] == word[1..] + tail;
      TokenEndAt(word[1..], tail);
    } else {
      assert word + tail == tail;
    }
  }

  lemma StatusParses(t: TodoItem)
    ensures ParseStatus(t.id, Fields(t)) == Some(t)
  {
    var tail := Fields(t);
    assert tail[1..4] == Marker(t.isDone);
    assert tail[5..] == t.text;
  }

  lemma FieldsParse(t: TodoItem)
    ensures ParseFields(IntToString(t.id) + Fields(t)) == Some(t)
  {
    var num := IntToString(t.id);
    var rest := num + Fields(t);
    IntToStringNoSpace(t.id);
    TokenEndAt(num, Fields(t));
    assert rest[..|num|] == num;
    assert rest[|num|..] == Fields(t);
    IntToStringParses(t.id);
    StatusParses(t);
  }

  /** Every line of the listing can be read back: it shows the item's id,
      its done flag and its text, and nothing is lost by the padding. */
  lemma FormatLineParses(t: TodoItem)
    ensures ParseLine(FormatLine(t)) == Some(t)
  {
    var num := IntToString(t.id);
    var pad := if |num| >= 3 then "" else Spaces(3 - |num|);
    assert PadLeft(num, 3) == pad + num;
    IntToStringNoSpace(t.id);
    assert FormatLine(t) == pad + (num + Fields(t));
    DropPadding(pad, num + Fields(t));
    FieldsParse(t);
  }

  lemma ShortIdText(n: int)
    requires -99 <= n <= 999
    ensures |IntToString(n)| <= 3
  {
    var m: nat := if n < 0 then -n else n;
    if m >= 10 {
      assert NatToString(m) == NatToString(m / 10) + [DigitChar(m % 10)];
      if m / 10 >= 10 {
        assert NatToString(m / 10) == NatToString(m / 100) + [DigitChar(m / 10 % 10)];
      }
    }
  }

  lemma FieldsColumns(t: TodoItem)
    ensures var f := Fields(t);
      |f| == 5 + |t.text| && f[0] == ' ' && f[1..4] == Marker(t.isDone) && f[4] == ' ' && f[5..] == t.text
  {
  }

  lemma ThreeWideColumn(padded: string, f: string)
    requires |padded| == 3 && |f| >= 5
    ensures var line := padded + f;
      |line| == 3 + |f| && line[3] == f[0] && line[4..7] == f[1..4] && line[7] == f[4] && line[8..] == f[5..]
  {
  }

  /** Ids from -99 to 999 fill the three-character column exactly, so the
      marker and the text start in the same column on every line. */
  lemma FormatLineColumns(t: TodoItem)
    requires -99 <= t.id <= 999
    ensures var line := FormatLine(t);
      |line| == 8 + |t.text| && line[3] == ' ' && line[4..7] == Marker(t.isDone) &&
      line[7] == ' ' && line[8..] == t.text
  {
    ShortIdText(t.id);
    FieldsColumns(t);
    ThreeWideColumn(PadLeft(IntToString(t.id), 3), Fields(t));
  }
}
