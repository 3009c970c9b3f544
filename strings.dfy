module Wrappers {
  datatype Option<+T> = None | Some(value: T)
}

/** The .NET string and integer primitives the command-line tool relies on:
    `ToLowerInvariant`, `string.Join(' ', ...)`, `int.TryParse`, the default
    `int.ToString()` and `PadLeft`. Only the cases the tool reaches are modelled. */
module Strings {
  import opened Wrappers

  const INT32_MIN: int := -0x8000_0000
  const INT32_MAX: int := 0x7fff_ffff

  /** A C# `int`. */
  type int32 = x: int | INT32_MIN <= x <= INT32_MAX

  // ---------------------------------------------------------------- case

  predicate IsAsciiUpper(c: char) { 'A' <= c <= 'Z' }

  /** The invariant-culture lower case of `c`, for ASCII letters. */
  function LowerChar(c: char): (r: char)
    ensures !IsAsciiUpper(r)
    ensures !IsAsciiUpper(c) ==> r == c
  {
    if IsAsciiUpper(c) then (c as int + ('a' as int - 'A' as int)) as char else c
  }

  /** `s.ToLowerInvariant()`. */
  function ToLowerInvariant(s: string): (r: string)
    ensures |r| == |s|
    ensures forall i :: 0 <= i < |r| ==> !IsAsciiUpper(r[i])
    ensures forall i :: 0 <= i < |r| ==> r[i] == s[i] || IsAsciiUpper(s[i])
    ensures forall i :: 0 <= i < |s| && IsAsciiUpper(s[i]) ==> r[i] as int == s[i] as int + 32
  {
    seq(|s|, i requires 0 <= i < |s| => LowerChar(s[i]))
  }

  /** Lower-casing twice is lower-casing once: the verb a user typed in any
      case selects the same command as its lower-case spelling. */
  lemma ToLowerIdempotent(s: string)
    ensures ToLowerInvariant(ToLowerInvariant(s)) == ToLowerInvariant(s)
  {
  }

  /** `a` and `b` spell the same word up to the case of ASCII letters. */
  predicate SameIgnoringCase(a: string, b: string)
  {
    |a| == |b| &&
    forall i :: 0 <= i < |a| ==>
      a[i] == b[i] ||
      (IsAsciiUpper(a[i]) && b[i] as int == a[i] as int + 32) ||
      (IsAsciiUpper(b[i]) && a[i] as int == b[i] as int + 32)
  }

  /** Words that differ only in the case of ASCII letters lower-case alike. */
  lemma LowerSameIgnoringCase(a: string, b: string)
    requires SameIgnoringCase(a, b)
    ensures ToLowerInvariant(a) == ToLowerInvariant(b)
  {
    var la, lb := ToLowerInvariant(a), ToLowerInvariant(b);
    forall i | 0 <= i < |a|
      ensures la[i] == lb[i]
    {
      if IsAsciiUpper(a[i]) && b[i] as int == a[i] as int + 32 {
        assert !IsAsciiUpper(b[i]);
      } else if IsAsciiUpper(b[i]) && a[i] as int == b[i] as int + 32 {
        assert !IsAsciiUpper(a[i]);
      }
    }
  }

  // ---------------------------------------------------------------- join / split

  function TotalLength(words: seq<string>): nat
  {
    if |words| == 0 then 0 else |words[0]| + TotalLength(words[1..])
  }

  /** `string.Join(' ', words)`. */
  function JoinWithSpace(words: seq<string>): (r: string)
    ensures |words| == 0 ==> r == ""
    ensures |r| == TotalLength(words) + (if |words| == 0 then 0 else |words| - 1)
    ensures |words| > 0 ==> r[..|words[0]|] == words[0]
  {
    if |words| == 0 then ""
    else if |words| == 1 then words[0]
    else words[0] + " " + JoinWithSpace(words[1..])
  }

  /** `s.Split(' ')`: the pieces between single spaces, empty pieces kept. */
  function SplitOnSpace(s: string): (r: seq<string>)
    ensures |r| > 0
  {
    if |s| == 0 then [""]
    else
      var rest := SplitOnSpace(s[1..]);
      if s[0] == ' ' then [""] + rest else [[s[0]] + rest[0]] + rest[1..]
  }

  lemma {:induction false} SplitWord(w: string, tail: seq<string>, s: string)
    requires ' ' !in w
    requires SplitOnSpace(s) == [""] + tail
    ensures SplitOnSpace(w + s) == [w] + tail
  {
    if |w| > 0 {
      SplitWord(w[1..], tail, s);
      assert (w + s)[1..] == w[1..] + s;
      assert [w[0]] + w[1..] == w;
    } else {
      assert w + s == s;
    }
  }

  /** Joining words that hold no space and splitting the result gives the
      words back: the joined task text loses no argument boundary then. */
  lemma {:induction false} SplitJoin(words: seq<string>)
    requires |words| > 0
    requires forall i :: 0 <= i < |words| ==> ' ' !in words[i]
    ensures SplitOnSpace(JoinWithSpace(words)) == words
  {
    if |words| == 1 {
      SplitWord(words[0], [], "");
      assert words[0] + "" == words[0];
    } else {
      var rest := words[1..];
      SplitJoin(rest);
      var s := " " + JoinWithSpace(rest);
      assert s[1..] == JoinWithSpace(rest);
      assert SplitOnSpace(s) == [""] + rest;
      SplitWord(words[0], rest, s);
      assert words[0] + " " + JoinWithSpace(rest) == words[0] + s;
      assert [words[0]] + rest == words;
    }
  }

  // ---------------------------------------------------------------- integers

  /** The white space `int.TryParse` skips before and after the number. */
  predicate IsWhiteSpace(c: char) { c == ' ' || '\t' <= c <= '\r' }

  predicate IsDigit(c: char) { '0' <= c <= '9' }

  predicate AllDigits(s: string) { forall i :: 0 <= i < |s| ==> IsDigit(s[i]) }

  function TrimStart(s: string): (r: string)
    ensures |r| <= |s| && r == s[|s| - |r|..]
    ensures |r| > 0 ==> !IsWhiteSpace(r[0])
    ensures |s| > 0 && !IsWhiteSpace(s[0]) ==> r == s
  {
    if |s| > 0 && IsWhiteSpace(s[0]) then TrimStart(s[1..]) else s
  }

  function TrimEnd(s: string): (r: string)
    ensures |r| <= |s| && r == s[..|r|]
    ensures |r| > 0 ==> !IsWhiteSpace(r[|r| - 1])
    ensures |s| > 0 && !IsWhiteSpace(s[|s| - 1]) ==> r == s
  {
    if |s| > 0 && IsWhiteSpace(s[|s| - 1]) then TrimEnd(s[..|s| - 1]) else s
  }

  function DigitValue(c: char): nat
    requires IsDigit(c)
  {
    c as int - '0' as int
  }

  /** The value of a string of decimal digits, most significant first. */
  function DigitsValue(ds: string): nat
    requires AllDigits(ds)
  {
    if |ds| == 0 then 0 else 10 * DigitsValue(ds[..|ds| - 1]) + DigitValue(ds[|ds| - 1])
  }

  function DigitChar(d: nat): (c: char)
    requires d < 10
    ensures IsDigit(c) && DigitValue(c) == d
  {
    ('0' as int + d) as char
  }

  /** The decimal digits of `n`, without leading zeros. */
  function NatToString(n: nat): (r: string)
    ensures |r| > 0 && IsDigit(r[0])
    decreases n
  {
    if n < 10 then [DigitChar(n)] else NatToString(n / 10) + [DigitChar(n % 10)]
  }

  /** `NatToString` writes only digits, no leading zero, and the digits
      denote `n`. */
  lemma {:induction false} NatToStringDigits(n: nat)
    ensures var r := NatToString(n);
      AllDigits(r) && DigitsValue(r) == n && (|r| > 1 ==> r[0] != '0')
    decreases n
  {
    if n >= 10 {
      NatToStringDigits(n / 10);
      var front := NatToString(n / 10);
      var r := NatToString(n);
      assert r == front + [DigitChar(n % 10)];
      assert r[..|r| - 1] == front;
    }
  }

  /** `n.ToString()` with the invariant culture's minus sign. */
  function IntToString(n: int): (r: string)
    ensures |r| > 0
    ensures r[0] == '-' <==> n < 0
  {
    if n < 0 then "-" + NatToString(-n) else NatToString(n)
  }

  /** A printed `int` has no white space in it, so it is one word. */
  lemma IntToStringNoSpace(n: int)
    ensures forall i :: 0 <= i < |IntToString(n)| ==> !IsWhiteSpace(IntToString(n)[i])
  {
    NatToStringDigits(if n < 0 then -n else n);
  }

  /** The value of an unsigned digit string with the given sign, if it is a C# `int`. */
  function SignedValue(negative: bool, ds: string): Option<int32>
  {
    if |ds| == 0 || !AllDigits(ds) then None
    else
      var n: int := if negative then 0 - DigitsValue(ds) as int else DigitsValue(ds);
      if INT32_MIN <= n <= INT32_MAX then Some(n) else None
  }

  /** `int.TryParse(s, out n)` with the default `NumberStyles.Integer`: white
      space around an optional sign and at least one ASCII digit; values
      outside the range of `int` fail. */
  function ParseInt(s: string): (r: Option<int32>)
    ensures r.Some? && r.value < 0 ==> '-' in s
  {
    var t := TrimEnd(TrimStart(s));
    if |t| > 0 && (t[0] == '-' || t[0] == '+') then SignedValue(t[0] == '-', t[1..])
    else SignedValue(false, t)
  }

  /** Printing an `int` and parsing it back gives the same `int`. */
  lemma IntToStringParses(n: int32)
    ensures ParseInt(IntToString(n)) == Some(n)
  {
    var m: nat := if n < 0 then -(n as int) else n as int;
    var ds := NatToString(m);
    NatToStringDigits(m);
    var s := IntToString(n);
    IntToStringNoSpace(n);
    assert !IsWhiteSpace(s[0]) && !IsWhiteSpace(s[|s| - 1]);
    assert TrimStart(s) == s;
    assert TrimEnd(s) == s;
    if n < 0 {
      assert s[1..] == ds;
      assert SignedValue(true, ds) == Some(n);
    } else {
      assert s == ds && IsDigit(s[0]);
      assert SignedValue(false, ds) == Some(n);
    }
  }

  predicate NoDigits(s: string) { forall i :: 0 <= i < |s| ==> !IsDigit(s[i]) }

  lemma {:induction false} TrimStartNoDigits(s: string)
    requires NoDigits(s)
    ensures NoDigits(TrimStart(s))
  {
    if |s| > 0 && IsWhiteSpace(s[0]) {
      assert forall i :: 0 <= i < |s| - 1 ==> s[1..][i] == s[i + 1];
      TrimStartNoDigits(s[1..]);
    }
  }

  lemma {:induction false} TrimEndNoDigits(s: string)
    requires NoDigits(s)
    ensures NoDigits(TrimEnd(s))
  {
    if |s| > 0 && IsWhiteSpace(s[|s| - 1]) {
      assert forall i :: 0 <= i < |s| - 1 ==> s[..|s| - 1][i] == s[i];
      TrimEndNoDigits(s[..|s| - 1]);
    }
  }

  lemma NoDigitsNoValue(negative: bool, ds: string)
    requires NoDigits(ds)
    ensures SignedValue(negative, ds) == None
  {
    if |ds| > 0 {
      assert !IsDigit(ds[0]);
    }
  }

  /** An argument with no digits is never an id. */
  lemma ParseIntNeedsDigit(s: string)
    requires NoDigits(s)
    ensures ParseInt(s) == None
  {
    TrimStartNoDigits(s);
    TrimEndNoDigits(TrimStart(s));
    var t := TrimEnd(TrimStart(s));
    if |t| > 0 && (t[0] == '-' || t[0] == '+') {
      assert NoDigits(t[1..]) by {
        assert forall i :: 0 <= i < |t| - 1 ==> t[1..][i] == t[i + 1];
      }
      NoDigitsNoValue(t[0] == '-', t[1..]);
    } else {
      NoDigitsNoValue(false, t);
    }
  }

  // ---------------------------------------------------------------- padding

  function Spaces(n: nat): (r: string)
    ensures |r| == n && forall i :: 0 <= i < n ==> r[i] == ' '
  {
    if n == 0 then "" else " " + Spaces(n - 1)
  }

  /** `s.PadLeft(width)`, which is what the `{x,width}` format item does. */
  function PadLeft(s: string, width: nat): (r: string)
    ensures |r| == if |s| >= width then |s| else width
  {
    if |s| >= width then s else Spaces(width - |s|) + s
  }

  /** Padding puts spaces in front of `s` and changes nothing in `s`. */
  lemma PadLeftShape(s: string, width: nat)
    ensures var r := PadLeft(s, width);
      r[|r| - |s|..] == s && forall i :: 0 <= i < |r| - |s| ==> r[i] == ' '
  {
    var r := PadLeft(s, width);
    if |s| < width {
      assert r == Spaces(width - |s|) + s;
    }
  }
}
