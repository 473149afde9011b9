/**
  Printing and parsing one line of the CSV export and import.
 */
module Csv {
  const QUOTE := '"'
  const FULL_WIDTH_COMMA := '\U{FF0C}'

  /** The characters `String.prototype.trim` removes. */
  predicate IsSpace(c: char) {
    || '\t' <= c <= '\r' || c == ' ' || c == '\U{A0}' || c == '\U{1680}' || '\U{2000}' <= c <= '\U{200A}'
    || c == '\U{2028}' || c == '\U{2029}' || c == '\U{202F}' || c == '\U{205F}' || c == '\U{3000}' || c == '\U{FEFF}'
  }

  predicate IsSeparator(c: char) { c == ',' || c == FULL_WIDTH_COMMA || c == '\t' }

  function TrimStart(s: string): string {
    if s != "" && IsSpace(s[0]) then TrimStart(s[1..]) else s
  }

  function TrimEnd(s: string): string {
    if s != "" && IsSpace(s[|s| - 1]) then TrimEnd(s[..|s| - 1]) else s
  }

  function Trim(s: string): string { TrimEnd(TrimStart(s)) }

  function TrimAll(fields: seq<string>): (r: seq<string>)
    ensures |r| == |fields|
    ensures forall i :: 0 <= i < |fields| ==> r[i] == Trim(fields[i])
  {
    if fields == [] then [] else [Trim(fields[0])] + TrimAll(fields[1..])
  }

  lemma TrimFirst(first: string, rest: seq<string>)
    ensures TrimAll([first] + rest) == [Trim(first)] + TrimAll(rest)
  {
    assert ([first] + rest)[1..] == rest;
  }

  // ---------------------------------------------------------------- printing

  function EscapeChar(c: char): string { if c == QUOTE then [QUOTE, QUOTE] else [c] }

  function Escape(s: string): string { if s == "" then "" else EscapeChar(s[0]) + Escape(s[1..]) }

  function Cell(s: string): string { [QUOTE] + Escape(s) + [QUOTE] }

  /** The cells of a row, joined by commas. */
  function Print(fields: seq<string>): string {
    if fields == [] then ""
    else if |fields| == 1 then Cell(fields[0])
    else Cell(fields[0]) + "," + Print(fields[1..])
  }

  // ---------------------------------------------------------------- parsing

  function ExtendFirst(prefix: string, fields: seq<string>): (r: seq<string>)
    requires fields != []
    ensures |r| == |fields|
  {
    fields[0 := prefix + fields[0]]
  }

  /** The fields of the rest of a line, before trimming; the first one may have begun earlier. */
  function Fields(line: string, quoted: bool): (fields: seq<string>)
    ensures fields != []
  {
    if line == "" then [""]
    else if line[0] == QUOTE then
      if quoted && |line| > 1 && line[1] == QUOTE then ExtendFirst([QUOTE], Fields(line[2..], quoted))
      else Fields(line[1..], !quoted)
    else if !quoted && IsSeparator(line[0]) then [""] + Fields(line[1..], quoted)
    else ExtendFirst([line[0]], Fields(line[1..], quoted))
  }

  function Parse(line: string): seq<string> { TrimAll(Fields(line, false)) }

  lemma ExtendByNothing(fields: seq<string>)
    requires fields != []
    ensures ExtendFirst("", fields) == fields
  {
    assert "" + fields[0] == fields[0];
  }

  lemma ExtendEmptyField(current: string, rest: seq<string>)
    ensures ExtendFirst(current, [""] + rest) == [current] + rest
  {
    assert current + "" == current;
  }

  lemma ExtendTwice(a: string, b: string, fields: seq<string>)
    requires fields != []
    ensures ExtendFirst(a, ExtendFirst(b, fields)) == ExtendFirst(a + b, fields)
  {
    assert a + (b + fields[0]) == (a + b) + fields[0];
  }

  /** The fields still to come when a line has been read up to `i` and a field has begun. */
  function Remaining(line: string, i: nat, quoted: bool, current: string): seq<string>
    requires i <= |line|
  {
    TrimAll(ExtendFirst(current, Fields(line[i..], quoted)))
  }

  lemma ReadQuotePair(line: string, i: nat, current: string)
    requires i + 1 < |line| && line[i] == line[i + 1] == QUOTE
    ensures Remaining(line, i, true, current) == Remaining(line, i + 2, true, current + [QUOTE])
  {
    assert line[i..][2..] == line[i + 2..];
    ExtendTwice(current, [QUOTE], Fields(line[i + 2..], true));
  }

  lemma ReadQuote(line: string, i: nat, quoted: bool, current: string)
    requires i < |line| && line[i] == QUOTE && !(quoted && i + 1 < |line| && line[i + 1] == QUOTE)
    ensures Remaining(line, i, quoted, current) == Remaining(line, i + 1, !quoted, current)
  {
    assert line[i..][1..] == line[i + 1..];
  }

  lemma ReadSeparator(line: string, i: nat, current: string)
    requires i < |line| && IsSeparator(line[i])
    ensures Remaining(line, i, false, current) == [Trim(current)] + Remaining(line, i + 1, false, "")
  {
    assert line[i..][1..] == line[i + 1..];
    var rest := Fields(line[i + 1..], false);
    ExtendEmptyField(current, rest);
    ExtendByNothing(rest);
    TrimFirst(current, rest);
  }

  lemma ReadCharacter(line: string, i: nat, quoted: bool, current: string)
    requires i < |line| && line[i] != QUOTE && (quoted || !IsSeparator(line[i]))
    ensures Remaining(line, i, quoted, current) == Remaining(line, i + 1, quoted, current + [line[i]])
  {
    assert line[i..][1..] == line[i + 1..];
    ExtendTwice(current, [line[i]], Fields(line[i + 1..], quoted));
  }

  lemma ReadEnd(line: string, quoted: bool, current: string)
    ensures Remaining(line, |line|, quoted, current) == [Trim(current)]
  {
    ExtendEmptyField(current, []);
    assert [""] + [] == [""] && [current] + [] == [current];
  }

  /** The same, one character after another. */
  function Resume(line: string, i: nat, quoted: bool, current: string): seq<string>
    requires i <= |line|
    decreases |line| - i
  {
    if i == |line| then [Trim(current)]
    else if line[i] == QUOTE then
      if quoted && i + 1 < |line| && line[i + 1] == QUOTE then Resume(line, i + 2, quoted, current + [QUOTE])
      else Resume(line, i + 1, !quoted, current)
    else if !quoted && IsSeparator(line[i]) then [Trim(current)] + Resume(line, i + 1, quoted, "")
    else Resume(line, i + 1, quoted, current + [line[i]])
  }

  lemma {:induction false} ResumeReadsTheRest(line: string, i: nat, quoted: bool, current: string)
    requires i <= |line|
    ensures Resume(line, i, quoted, current) == Remaining(line, i, quoted, current)
    decreases |line| - i
  {
    if i == |line| {
      ReadEnd(line, quoted, current);
    } else if line[i] == QUOTE {
      if quoted && i + 1 < |line| && line[i + 1] == QUOTE {
        ReadQuotePair(line, i, current);
        ResumeReadsTheRest(line, i + 2, quoted, current + [QUOTE]);
      } else {
        ReadQuote(line, i, quoted, current);
        ResumeReadsTheRest(line, i + 1, !quoted, current);
      }
    } else if !quoted && IsSeparator(line[i]) {
      ReadSeparator(line, i, current);
      ResumeReadsTheRest(line, i + 1, quoted, "");
    } else {
      ReadCharacter(line, i, quoted, current);
      ResumeReadsTheRest(line, i + 1, quoted, current + [line[i]]);
    }
  }

  lemma ResumeFromTheStart(line: string)
    ensures Resume(line, 0, false, "") == Parse(line)
  {
    ResumeReadsTheRest(line, 0, false, "");
    ExtendByNothing(Fields(line, false));
    assert line[0..] == line;
  }

  method ParseCsvLine(line: string) returns (fields: seq<string>)
    ensures fields == Parse(line)
  {
    fields := [];
    var current := "";
    var quoted := false;
    var index := 0;
    while index < |line|
      invariant 0 <= index <= |line|
      invariant Resume(line, 0, false, "") == fields + Resume(line, index, quoted, current)
    {
      var character := line[index];
      if character == QUOTE {
        if quoted && index + 1 < |line| && line[index + 1] == QUOTE {
          current := current + [QUOTE];
          index := index + 1;
        } else {
          quoted := !quoted;
        }
      } else if !quoted && IsSeparator(character) {
        fields := fields + [Trim(current)];
        current := "";
      } else {
        current := current + [character];
      }
      index := index + 1;
    }
    fields := fields + [Trim(current)];
    ResumeFromTheStart(line);
  }

  // ---------------------------------------------------------------- round trips

  lemma EscapedCharReadsBack(c: char, tail: string)
    ensures Fields(EscapeChar(c) + tail, true) == ExtendFirst([c], Fields(tail, true))
  {
    if c == QUOTE { assert ([QUOTE, QUOTE] + tail)[2..] == tail; } else { assert ([c] + tail)[1..] == tail; }
  }

  lemma ClosingQuoteReads(rest: string)
    requires rest == "" || rest[0] != QUOTE
    ensures Fields([QUOTE] + rest, true) == Fields(rest, false)
  {
    assert ([QUOTE] + rest)[1..] == rest;
  }

  /** Inside quotes an escaped text reads as itself, up to the closing quote. */
  lemma {:induction false} EscapedTextReadsBack(s: string, rest: string)
    requires rest == "" || rest[0] != QUOTE
    ensures Fields(Escape(s) + [QUOTE] + rest, true) == ExtendFirst(s, Fields(rest, false))
  {
    if s == "" {
      ClosingQuoteReads(rest);
      ExtendByNothing(Fields(rest, false));
      assert Escape(s) + [QUOTE] + rest == [QUOTE] + rest;
    } else {
      var tail := Escape(s[1..]) + [QUOTE] + rest;
      EscapedTextReadsBack(s[1..], rest);
      EscapedCharReadsBack(s[0], tail);
      ExtendTwice([s[0]], s[1..], Fields(rest, false));
      assert [s[0]] + s[1..] == s;
      assert Escape(s) + [QUOTE] + rest == EscapeChar(s[0]) + tail;
    }
  }

  lemma CellReadsBack(s: string, rest: string)
    requires rest == "" || rest[0] != QUOTE
    ensures Fields(Cell(s) + rest, false) == ExtendFirst(s, Fields(rest, false))
  {
    EscapedTextReadsBack(s, rest);
    assert (Cell(s) + rest)[1..] == Escape(s) + [QUOTE] + rest;
  }

  lemma {:induction false} PrintedFieldsReadBack(fields: seq<string>)
    requires fields != []
    ensures Fields(Print(fields), false) == fields
  {
    if |fields| == 1 {
      CellReadsBack(fields[0], "");
      ExtendEmptyField(fields[0], []);
      assert Cell(fields[0]) + "" == Print(fields) && [""] + [] == [""] && [fields[0]] + [] == fields;
    } else {
      var rest := "," + Print(fields[1..]);
      CellReadsBack(fields[0], rest);
      PrintedFieldsReadBack(fields[1..]);
      assert rest[1..] == Print(fields[1..]);
      assert Cell(fields[0]) + rest == Print(fields);
      ExtendEmptyField(fields[0], fields[1..]);
    }
  }

  /** Parsing a printed row gives back the trimmed fields, whatever characters they hold. */
  lemma ParseInvertsPrint(fields: seq<string>)
    requires fields != []
    ensures Parse(Print(fields)) == TrimAll(fields)
  {
    PrintedFieldsReadBack(fields);
  }

  lemma {:induction false} TrimEndKeepsTheStart(s: string)
    requires s == "" || !IsSpace(s[0])
    ensures TrimEnd(s) == "" || !IsSpace(TrimEnd(s)[0])
  {
    if s != "" && IsSpace(s[|s| - 1]) { TrimEndKeepsTheStart(s[..|s| - 1]); }
  }

  lemma {:induction false} TrimStartRemovesLeadingSpace(s: string)
    ensures TrimStart(s) == "" || !IsSpace(TrimStart(s)[0])
  {
    if s != "" && IsSpace(s[0]) { TrimStartRemovesLeadingSpace(s[1..]); }
  }

  lemma {:induction false} TrimEndRemovesTrailingSpace(s: string)
    ensures TrimEnd(s) == "" || !IsSpace(TrimEnd(s)[|TrimEnd(s)| - 1])
  {
    if s != "" && IsSpace(s[|s| - 1]) { TrimEndRemovesTrailingSpace(s[..|s| - 1]); }
  }

  lemma TrimTwice(s: string)
    ensures Trim(Trim(s)) == Trim(s)
  {
    TrimStartRemovesLeadingSpace(s);
    TrimEndKeepsTheStart(TrimStart(s));
    TrimEndRemovesTrailingSpace(TrimStart(s));
  }

  /** What is parsed from any line is in normal form: printing and parsing it again changes nothing. */
  lemma ParsedLinesAreStable(line: string)
    ensures Parse(line) != [] && Parse(Print(Parse(line))) == Parse(line)
  {
    var fields := Parse(line);
    ParseInvertsPrint(fields);
    forall i | 0 <= i < |fields| ensures TrimAll(fields)[i] == fields[i] { TrimTwice(Fields(line, false)[i]); }
  }

  /** The one row that does not come back is the empty one: an empty line has one empty field. */
  lemma EmptyRowsGainAField()
    ensures Parse(Print([])) == [""]
  {
    assert Fields("", false) == [""];
  }

  // ---------------------------------------------------------------- lines that nobody quoted

  /** A cell that needs no quotes. */
  predicate PlainCell(cell: string) { forall c :: c in cell ==> c != '"' && c !in {',', '\U{FF0C}', '\t'} }

  /** Cells joined by separators of any of the three kinds. */
  function Joined(cells: seq<string>, separators: seq<char>): string
    requires |cells| == |separators| + 1
  {
    if separators == [] then cells[0] else cells[0] + [separators[0]] + Joined(cells[1..], separators[1..])
  }

  lemma {:induction false} PlainCellReads(cell: string, rest: string)
    requires PlainCell(cell)
    ensures Fields(cell + rest, false) == ExtendFirst(cell, Fields(rest, false))
  {
    if cell == "" {
      assert cell + rest == rest;
      ExtendByNothing(Fields(rest, false));
    } else {
      var tail := cell[1..];
      assert (cell + rest)[0] == cell[0] && (cell + rest)[1..] == tail + rest && cell[0] in cell;
      assert forall c :: c in tail ==> c in cell;
      PlainCellReads(tail, rest);
      ExtendTwice([cell[0]], tail, Fields(rest, false));
      assert [cell[0]] + tail == cell;
    }
  }

  lemma {:induction false} JoinedCellsRead(cells: seq<string>, separators: seq<char>)
    requires |cells| == |separators| + 1
    requires (forall i :: 0 <= i < |cells| ==> PlainCell(cells[i]))
    requires forall i :: 0 <= i < |separators| ==> separators[i] in {',', '\U{FF0C}', '\t'}
    ensures Fields(Joined(cells, separators), false) == cells
  {
    if separators == [] {
      PlainCellReads(cells[0], "");
      ExtendEmptyField(cells[0], []);
      assert cells[0] + "" == cells[0] && [""] + [] == [""] && [cells[0]] + [] == cells;
    } else {
      var rest := [separators[0]] + Joined(cells[1..], separators[1..]);
      PlainCellReads(cells[0], rest);
      JoinedCellsRead(cells[1..], separators[1..]);
      assert rest[1..] == Joined(cells[1..], separators[1..]);
      assert cells[0] + rest == Joined(cells, separators);
      ExtendEmptyField(cells[0], cells[1..]);
      assert [cells[0]] + cells[1..] == cells;
    }
  }

  /**
    Unquoted cells are separated by commas, full-width commas and tabs, in any mixture, and by
    nothing else: every other character but a quote belongs to its cell.
   */
  lemma UnquotedLinesSplit(cells: seq<string>, separators: seq<char>)
    requires |cells| == |separators| + 1
    requires (forall i :: 0 <= i < |cells| ==> PlainCell(cells[i]))
    requires forall i :: 0 <= i < |separators| ==> separators[i] in {',', '\U{FF0C}', '\t'}
    ensures Parse(Joined(cells, separators)) == TrimAll(cells)
  {
    JoinedCellsRead(cells, separators);
  }

  /** Trimming cuts away all the white space at both ends and nothing else. */
  lemma TrimCutsTheEnds(s: string, i: nat, j: nat)
    requires i <= j <= |s| && (forall k :: 0 <= k < i || j <= k < |s| ==> IsSpace(s[k]))
    requires i < j ==> !IsSpace(s[i]) && !IsSpace(s[j - 1])
    ensures Trim(s) == s[i..j]
  {
    if i == j {
      TrimStartSkips(s, |s|);
    } else {
      TrimStartSkips(s, i);
      TrimEndSkips(s[i..], j - i);
      assert s[i..][..j - i] == s[i..j];
    }
  }

  lemma {:induction false} TrimStartSkips(s: string, i: nat)
    requires i <= |s| && (forall k :: 0 <= k < i ==> IsSpace(s[k])) && (i < |s| ==> !IsSpace(s[i]))
    ensures TrimStart(s) == s[i..]
  {
    if i > 0 {
      TrimStartSkips(s[1..], i - 1);
      assert s[1..][i - 1..] == s[i..];
    }
  }

  lemma {:induction false} TrimEndSkips(s: string, j: nat)
    requires j <= |s| && (forall k :: j <= k < |s| ==> IsSpace(s[k])) && (j > 0 ==> !IsSpace(s[j - 1]))
    ensures TrimEnd(s) == s[..j]
  {
    if j < |s| {
      TrimEndSkips(s[..|s| - 1], j);
      assert s[..|s| - 1][..j] == s[..j];
    } else {
      assert s[..j] == s;
    }
  }

  /** White space, by code point: that of ECMAScript, which counts the line ends and the byte order mark. */
  lemma SpacesAreListed(c: char)
    ensures IsSpace(c) <==>
            || 9 <= c as int <= 13 || 0x2000 <= c as int <= 0x200A
            || c as int in {0x20, 0xA0, 0x1680, 0x2028, 0x2029, 0x202F, 0x205F, 0x3000, 0xFEFF}
  {
  }
}
