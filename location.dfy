/** Call-site information of a log event (`Logger.LocationInfo`) and its
    textual rendering `file:function:line:column`. */
module Location {
  import opened Wrappers

  /** `functionName` is the source's `function` field (a keyword here). */
  datatype LocationInfo = LocationInfo(file: string, line: int, column: int, functionName: string)

  // ---------------------------------------------------------------------------
  // Decimal rendering of integers, as string interpolation of an `Int` does.

  predicate IsDigit(c: char)
  {
    '0' <= c <= '9'
  }

  predicate IsDigits(s: string)
  {
    forall i :: 0 <= i < |s| ==> IsDigit(s[i])
  }

  function DigitChar(d: nat): (c: char)
    requires d < 10
    ensures IsDigit(c)
  {
    ['0', '1', '2', '3', '4', '5', '6', '7', '8', '9'][d]
  }

  function DigitValue(c: char): (d: nat)
    requires IsDigit(c)
    ensures d < 10
  {
    (c as int) - ('0' as int)
  }

  /** The decimal digits of `n`, most significant first, with no leading zero. */
  function NatToString(n: nat): (s: string)
    ensures |s| >= 1 && IsDigits(s)
    ensures |s| > 1 ==> s[0] != '0'
    decreases n
  {
    if n < 10 then [DigitChar(n)] else NatToString(n / 10) + [DigitChar(n % 10)]
  }

  /** `n` in decimal, with a leading `-` when it is negative. */
  function IntToString(n: int): (s: string)
  {
    if n < 0 then "-" + NatToString(-n) else NatToString(n)
  }

  /** The value of a string of decimal digits. */
  function DigitsValue(s: string): nat
    requires IsDigits(s)
  {
    if s == [] then 0 else 10 * DigitsValue(s[..|s| - 1]) + DigitValue(s[|s| - 1])
  }

  /** Reads back what `IntToString` writes: an optional `-` and at least one digit. */
  function ParseInt(s: string): Option<int>
  {
    if |s| >= 2 && s[0] == '-' && IsDigits(s[1..]) then Some(-(DigitsValue(s[1..]) as int))
    else if |s| >= 1 && IsDigits(s) then Some(DigitsValue(s))
    else None
  }

  lemma {:induction false} NatToStringValue(n: nat)
    ensures DigitsValue(NatToString(n)) == n
    decreases n
  {
    var s := NatToString(n);
    if n >= 10 {
      NatToStringValue(n / 10);
      assert s[..|s| - 1] == NatToString(n / 10);
    }
  }

  /** Rendering an integer and reading it back gives the integer. */
  lemma IntToStringRoundTrip(n: int)
    ensures ParseInt(IntToString(n)) == Some(n)
    ensures ':' !in IntToString(n)
  {
    var s := IntToString(n);
    if n < 0 {
      var digits := NatToString(-n);
      NatToStringValue(-n);
      assert s == ['-'] + digits;
      assert s[1..] == digits;
      assert ParseInt(s) == Some(-(DigitsValue(digits) as int));
    } else {
      NatToStringValue(n);
      assert s[0] != '-' by {
        assert IsDigit(s[0]);
      }
    }
  }

  /** Distinct integers render as distinct strings. */
  lemma IntToStringInjective(m: int, n: int)
    ensures IntToString(m) == IntToString(n) <==> m == n
  {
    IntToStringRoundTrip(m);
    IntToStringRoundTrip(n);
  }

  // ---------------------------------------------------------------------------
  // `description`.

  /** `file:function:line:column`; the function name comes before the line. */
  function Description(loc: LocationInfo): string
  {
    loc.file + ":" + loc.functionName + ":" + IntToString(loc.line) + ":" + IntToString(loc.column)
  }

  /** The fields of a string separated by `sep`, in order. */
  function Split(s: string, sep: char): (parts: seq<string>)
    ensures |parts| >= 1
  {
    if sep !in s then [s]
    else
      var i := FirstIndex(s, sep);
      [s[..i]] + Split(s[i + 1..], sep)
  }

  function FirstIndex(s: string, c: char): (i: nat)
    requires c in s
    ensures i < |s| && s[i] == c && c !in s[..i]
  {
    if s[0] == c then 0 else 1 + FirstIndex(s[1..], c)
  }

  /** The fields joined back with `sep` between them. */
  function Join(parts: seq<string>, sep: char): string
    requires |parts| >= 1
  {
    if |parts| == 1 then parts[0] else parts[0] + [sep] + Join(parts[1..], sep)
  }

  /** Reads a description back: the first field is the file, the last two are
      the line and the column, and the fields between them, joined by colons,
      are the function name (which may itself contain colons). */
  function ParseDescription(s: string): Option<LocationInfo>
  {
    var parts := Split(s, ':');
    if |parts| < 4 then None
    else match (ParseInt(parts[|parts| - 2]), ParseInt(parts[|parts| - 1]))
      case (Some(line), Some(column)) =>
        Some(LocationInfo(parts[0], line, column, Join(parts[1..|parts| - 2], ':')))
      case _ => None
  }

  /** Joining the fields of a split gives back the string. */
  lemma {:induction false} JoinSplit(s: string, sep: char)
    ensures Join(Split(s, sep), sep) == s
    decreases |s|
  {
    if sep in s {
      var i := FirstIndex(s, sep);
      var head, rest := s[..i], s[i + 1..];
      assert s == head + [sep] + rest;
      SplitCons(head, rest, sep);
      JoinSplit(rest, sep);
      JoinCons(head, Split(rest, sep), sep);
    }
  }

  lemma JoinCons(head: string, parts: seq<string>, sep: char)
    requires |parts| >= 1
    ensures Join([head] + parts, sep) == head + [sep] + Join(parts, sep)
  {
    assert ([head] + parts)[1..] == parts;
  }

  lemma SplitCons(a: string, rest: string, sep: char)
    requires sep !in a
    ensures Split(a + [sep] + rest, sep) == [a] + Split(rest, sep)
  {
    var s := a + [sep] + rest;
    FirstIndexAfter(a, rest, sep);
    assert s[..|a|] == a;
    assert s[|a| + 1..] == rest;
  }

  lemma {:induction false} FirstIndexAfter(a: string, rest: string, sep: char)
    requires sep !in a
    ensures FirstIndex(a + [sep] + rest, sep) == |a|
  {
    if a != [] {
      assert (a + [sep] + rest)[1..] == a[1..] + [sep] + rest;
      FirstIndexAfter(a[1..], rest, sep);
    }
  }

  lemma SplitWithoutSeparator(s: string, sep: char)
    requires sep !in s
    ensures Split(s, sep) == [s]
  {
  }

  /** Splits a string made of two, three or four separator-free fields
      joined by the separator. */
  lemma SplitTwo(f0: string, f1: string, sep: char)
    requires sep !in f0 && sep !in f1
    ensures Split(f0 + [sep] + f1, sep) == [f0, f1]
  {
    SplitCons(f0, f1, sep);
    SplitWithoutSeparator(f1, sep);
  }

  lemma SplitThree(f0: string, f1: string, f2: string, sep: char)
    requires sep !in f0 && sep !in f1 && sep !in f2
    ensures Split(f0 + [sep] + (f1 + [sep] + f2), sep) == [f0, f1, f2]
  {
    SplitCons(f0, f1 + [sep] + f2, sep);
    SplitTwo(f1, f2, sep);
  }

  lemma SplitFour(f0: string, f1: string, f2: string, f3: string)
    requires ':' !in f0 && ':' !in f1 && ':' !in f2 && ':' !in f3
    ensures Split(f0 + ":" + f1 + ":" + f2 + ":" + f3, ':') == [f0, f1, f2, f3]
  {
    var tail := f1 + [':'] + (f2 + [':'] + f3);
    assert f0 + ":" + f1 + ":" + f2 + ":" + f3 == f0 + [':'] + tail;
    SplitCons(f0, tail, ':');
    SplitThree(f1, f2, f3, ':');
  }

  /** A description is the file, the function name, the line and the
      column, each pair joined by a colon. */
  lemma DescriptionShape(loc: LocationInfo)
    ensures var tail := IntToString(loc.line) + [':'] + IntToString(loc.column);
      Description(loc) == loc.file + [':'] + (loc.functionName + [':'] + tail) &&
      Description(loc) == (loc.file + [':'] + loc.functionName) + [':'] + tail
  {
  }

  /** The fields of a description whose file name has no colon: the file,
      the fields of the function name, the line and the column. */
  lemma DescriptionFields(loc: LocationInfo)
    requires ':' !in loc.file
    ensures Split(Description(loc), ':')
         == [loc.file] + Split(loc.functionName, ':') + [IntToString(loc.line), IntToString(loc.column)]
  {
    IntToStringRoundTrip(loc.line);
    IntToStringRoundTrip(loc.column);
    DescriptionShape(loc);
    SplitFields(loc.file, loc.functionName, IntToString(loc.line), IntToString(loc.column));
  }

  lemma SplitFields(file: string, fn: string, line: string, column: string)
    requires ':' !in file && ':' !in line && ':' !in column
    ensures Split(file + [':'] + (fn + [':'] + (line + [':'] + column)), ':')
         == [file] + Split(fn, ':') + [line, column]
  {
    var tail := line + [':'] + column;
    SplitCons(file, fn + [':'] + tail, ':');
    SplitSnoc(fn, tail, ':');
    SplitTwo(line, column, ':');
  }

  /** When the file name contains no colon, the description determines the
      location: it reads back to the same file, function, line and column,
      whatever colons the function name holds (as a Swift function name
      with parameter labels does). */
  lemma DescriptionRoundTrip(loc: LocationInfo)
    requires ':' !in loc.file
    ensures ParseDescription(Description(loc)) == Some(loc)
  {
    IntToStringRoundTrip(loc.line);
    IntToStringRoundTrip(loc.column);
    DescriptionFields(loc);
    var fn := Split(loc.functionName, ':');
    var parts := Split(Description(loc), ':');
    assert parts[1..|parts| - 2] == fn;
    JoinSplit(loc.functionName, ':');
  }

  /** Two locations with the same line and column render alike when their
      file and function names joined by a colon are the same string. */
  lemma SameJoinSameDescription(a: LocationInfo, b: LocationInfo)
    requires a.file + [':'] + a.functionName == b.file + [':'] + b.functionName
    requires a.line == b.line && a.column == b.column
    ensures Description(a) == Description(b)
  {
    var tail := [':'] + IntToString(a.line) + [':'] + IntToString(a.column);
    assert Description(a) == (a.file + [':'] + a.functionName) + tail;
    assert Description(b) == (b.file + [':'] + b.functionName) + tail;
  }

  /** Once a colon is in the file name or the function name, the description
      does not determine the location: another location renders alike. */
  lemma ColonMakesDescriptionAmbiguous(loc: LocationInfo)
    requires ':' in loc.file || ':' in loc.functionName
    ensures exists other :: other != loc && Description(other) == Description(loc)
  {
    var other;
    if ':' in loc.file {
      other := MoveFileTail(loc);
    } else {
      other := MoveFunctionHead(loc);
    }
    SameJoinSameDescription(other, loc);
  }

  /** The part of the file name after its first colon moved to the front of
      the function name. */
  lemma MoveFileTail(loc: LocationInfo) returns (other: LocationInfo)
    requires ':' in loc.file
    ensures other != loc && other.line == loc.line && other.column == loc.column
    ensures other.file + [':'] + other.functionName == loc.file + [':'] + loc.functionName
  {
    var i := FirstIndex(loc.file, ':');
    var f, g := loc.file[..i], loc.file[i + 1..];
    assert loc.file == f + [':'] + g;
    other := LocationInfo(f, loc.line, loc.column, g + [':'] + loc.functionName);
    assert |other.file| < |loc.file|;
  }

  /** The part of the function name before its first colon moved to the end
      of the file name. */
  lemma MoveFunctionHead(loc: LocationInfo) returns (other: LocationInfo)
    requires ':' in loc.functionName
    ensures other != loc && other.line == loc.line && other.column == loc.column
    ensures other.file + [':'] + other.functionName == loc.file + [':'] + loc.functionName
  {
    var j := FirstIndex(loc.functionName, ':');
    var f, g := loc.functionName[..j], loc.functionName[j + 1..];
    assert loc.functionName == f + [':'] + g;
    other := LocationInfo(loc.file + [':'] + f, loc.line, loc.column, g);
    assert |other.file| > |loc.file|;
  }

  /** The line and the column are the last two colon-separated fields of a
      description whatever the file and function names contain. */
  lemma DescriptionEndsWithLineAndColumn(loc: LocationInfo)
    ensures var parts := Split(Description(loc), ':');
      |parts| >= 4 &&
      ParseInt(parts[|parts| - 2]) == Some(loc.line) &&
      ParseInt(parts[|parts| - 1]) == Some(loc.column)
  {
    var line, column := IntToString(loc.line), IntToString(loc.column);
    IntToStringRoundTrip(loc.line);
    IntToStringRoundTrip(loc.column);
    var prefix := loc.file + [':'] + loc.functionName;
    var tail := line + [':'] + column;
    DescriptionShape(loc);
    assert prefix[|loc.file|] == ':';
    SplitHasSeparatorCount(prefix, ':');
    SplitSnoc(prefix, tail, ':');
    SplitTwo(line, column, ':');
    var front := Split(prefix, ':');
    var parts := front + [line, column];
    assert parts[|parts| - 2] == line && parts[|parts| - 1] == column;
  }

  /** Splitting at a separator splits each side on its own. */
  lemma {:induction false} SplitSnoc(a: string, b: string, sep: char)
    ensures Split(a + [sep] + b, sep) == Split(a, sep) + Split(b, sep)
    decreases |a|, 1
  {
    if sep !in a {
      SplitCons(a, b, sep);
      SplitWithoutSeparator(a, sep);
    } else {
      var i := FirstIndex(a, sep);
      var head, rest := a[..i], a[i + 1..];
      assert a == head + [sep] + rest;
      SplitSnocAt(head, rest, b, sep);
    }
  }

  lemma {:induction false} SplitSnocAt(head: string, rest: string, b: string, sep: char)
    requires sep !in head
    ensures Split(head + [sep] + rest + [sep] + b, sep) == Split(head + [sep] + rest, sep) + Split(b, sep)
    decreases |head| + 1 + |rest|, 0
  {
    SplitAtFirst(head, rest, b, sep);
    SplitSnoc(rest, b, sep);
  }

  lemma SplitAtFirst(head: string, rest: string, b: string, sep: char)
    requires sep !in head
    ensures Split(head + [sep] + rest + [sep] + b, sep) == [head] + Split(rest + [sep] + b, sep)
    ensures Split(head + [sep] + rest, sep) == [head] + Split(rest, sep)
  {
    SplitCons(head, rest, sep);
    SplitCons(head, rest + [sep] + b, sep);
    assert head + [sep] + rest + [sep] + b == head + [sep] + (rest + [sep] + b);
  }

  /** A string with a separator in it splits into at least two fields. */
  lemma SplitHasSeparatorCount(s: string, sep: char)
    requires sep in s
    ensures |Split(s, sep)| >= 2
  {
  }
}
