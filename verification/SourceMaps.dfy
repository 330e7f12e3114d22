/** Source maps: their column conversion and their lookup (src/compiler/source_map.rs). */
module SourceMaps {
  import opened Wrappers

  // ------------------------------------------------------------------- characters

  /** Bytes of a character (section 3 of RFC 3629). */
  function Utf8Length(c: char): nat {
    if c as int < 0x80 then 1 else if c as int < 0x800 then 2 else if c as int < 0x1_0000 then 3 else 4
  }

  /** Code units of a character (section 2.1 of RFC 2781). */
  function Utf16Length(c: char): nat { if c as int < 0x1_0000 then 1 else 2 }

  function Lines(text: string): (lines: seq<string>)
    ensures |lines| > 0
  {
    if text == [] then [[]]
    else
      var rest := Lines(text[1..]);
      if text[0] == '\n' then [[]] + rest else [[text[0]] + rest[0]] + rest[1..]
  }

  function Line(text: string, line: nat): string {
    if line < |Lines(text)| then Lines(text)[line] else []
  }

  // ---------------------------------------------------------------------- columns

  /** A place on a line: what follows it, and its column both ways. */
  datatype Place = Place(rest: string, utf16: nat, bytes: nat)

  function Advance(place: Place, utf16: nat): Place
    decreases |place.rest|
  {
    if place.utf16 >= utf16 || place.rest == [] then place
    else
      var c := place.rest[0];
      Advance(Place(place.rest[1..], place.utf16 + Utf16Length(c), place.bytes + Utf8Length(c)), utf16)
  }

  /** The byte column of a UTF-16 column, counted from the start of its line. */
  function ByteColumn(text: string, line: nat, utf16: nat): nat {
    Advance(Place(Line(text, line), 0, 0), utf16).bytes
  }

  lemma {:induction false} AdvanceTwice(place: Place, first: nat, second: nat)
    requires first <= second
    ensures Advance(Advance(place, first), second) == Advance(place, second)
    ensures Advance(place, first).bytes <= Advance(place, second).bytes
    decreases |place.rest|
  {
    if place.utf16 >= first || place.rest == [] {
      AdvanceGrows(place, second);
    } else {
      var c := place.rest[0];
      AdvanceTwice(Place(place.rest[1..], place.utf16 + Utf16Length(c), place.bytes + Utf8Length(c)), first, second);
    }
  }

  lemma {:induction false} AdvanceGrows(place: Place, utf16: nat)
    ensures place.bytes <= Advance(place, utf16).bytes
    decreases |place.rest|
  {
    if place.utf16 < utf16 && place.rest != [] {
      var c := place.rest[0];
      AdvanceGrows(Place(place.rest[1..], place.utf16 + Utf16Length(c), place.bytes + Utf8Length(c)), utf16);
    }
  }

  /** Positions in output order: by line, then by column. */
  predicate NotAfter(line1: nat, column1: nat, line2: nat, column2: nat) {
    line1 < line2 || (line1 == line2 && column1 <= column2)
  }

  /** Converts columns visited in output order, each from the last one on. */
  class ByteColumns {
    ghost const text: string
    ghost var visited: nat
    var lines: seq<string>
    var line: nat
    var rest: string
    var utf16Column: nat
    var byteColumn: nat

    constructor (text: string)
      ensures this.text == text && Valid() && line == 0 && visited == 0
    {
      this.text, visited := text, 0;
      lines, line := Lines(text)[1..], 0;
      rest, utf16Column, byteColumn := Lines(text)[0], 0, 0;
    }

    ghost function Here(): Place
      reads this
    {
      Place(rest, utf16Column, byteColumn)
    }

    /** The cursor is where visiting column `visited` of its line from the start leads. */
    ghost predicate Valid()
      reads this
    {
      && lines == (if line + 1 <= |Lines(text)| then Lines(text)[line + 1..] else [])
      && Here() == Advance(Place(Line(text, line), 0, 0), visited)
    }

    /** The byte column of a position no earlier than the last one: what counting from the
        start of its line gives. */
    method Visit(toLine: nat, toColumn: nat) returns (column: nat)
      requires Valid() && NotAfter(line, visited, toLine, toColumn)
      modifies this
      ensures Valid() && line == toLine && visited == toColumn
      ensures column == ByteColumn(text, toLine, toColumn)
    {
      while line < toLine
        invariant Valid() && line <= toLine
        invariant line == toLine ==> visited <= toColumn
      {
        NextLine();
      }
      AdvanceTwice(Place(Line(text, line), 0, 0), visited, toColumn);
      MoveTo(toColumn);
      visited := toColumn;
      column := byteColumn;
    }

    /** The start of the next line, which is empty past the last one. */
    method NextLine()
      requires Valid()
      modifies this
      ensures Valid() && line == old(line) + 1 && visited == 0
    {
      ghost var all := Lines(text);
      if lines == [] {
        rest := [];
      } else {
        assert lines == all[line + 1..] && lines[1..] == all[line + 2..];
        rest, lines := lines[0], lines[1..];
      }
      line := line + 1;
      utf16Column, byteColumn, visited := 0, 0, 0;
      assert rest == Line(text, line);
    }

    method MoveTo(toColumn: nat)
      modifies this`rest, this`utf16Column, this`byteColumn
      ensures Here() == Advance(old(Here()), toColumn)
    {
      ghost var to := Advance(Here(), toColumn);
      var chars := rest;
      while utf16Column < toColumn && chars != []
        invariant Advance(Place(chars, utf16Column, byteColumn), toColumn) == to
        decreases |chars|
      {
        utf16Column := utf16Column + Utf16Length(chars[0]);
        byteColumn := byteColumn + Utf8Length(chars[0]);
        chars := chars[1..];
      }
      rest := chars;
    }
  }

  // -------------------------------------------------------------------- the table

  /** One position of generated code, in UTF-16 columns, with where it came from. */
  datatype Token = Token(line: nat, utf16: nat, tsLine: nat, tsColumn: nat)

  datatype Mapping = Mapping(jsLine: nat, jsColumn: nat, tsLine: nat, tsColumn: nat)

  predicate InOutputOrder(tokens: seq<Token>) {
    forall i, j | 0 <= i < j < |tokens| :: NotAfter(tokens[i].line, tokens[i].utf16, tokens[j].line, tokens[j].utf16)
  }

  predicate Sorted(mappings: seq<Mapping>) {
    forall i, j | 0 <= i < j < |mappings| ::
      NotAfter(mappings[i].jsLine, mappings[i].jsColumn, mappings[j].jsLine, mappings[j].jsColumn)
  }

  function Mapped(token: Token, js: string): Mapping {
    Mapping(token.line, ByteColumn(js, token.line, token.utf16), token.tsLine, token.tsColumn)
  }

  lemma MappedKeepsOrder(first: Token, second: Token, js: string)
    requires NotAfter(first.line, first.utf16, second.line, second.utf16)
    ensures var (a, b) := (Mapped(first, js), Mapped(second, js)); NotAfter(a.jsLine, a.jsColumn, b.jsLine, b.jsColumn)
  {
    if first.line == second.line {
      AdvanceTwice(Place(Line(js, first.line), 0, 0), first.utf16, second.utf16);
    }
  }

  /** Builds the table of `js` from tokens in output order: every column is converted as
      from the start of its line, and the table is sorted as its lookup needs. */
  method FromCodegen(tokens: seq<Token>, js: string) returns (mappings: seq<Mapping>)
    requires InOutputOrder(tokens)
    ensures |mappings| == |tokens| && forall i | 0 <= i < |tokens| :: mappings[i] == Mapped(tokens[i], js)
    ensures Sorted(mappings)
  {
    var columns := new ByteColumns(js);
    mappings := [];
    for i := 0 to |tokens|
      invariant columns.Valid() && columns.text == js
      invariant fresh(columns)
      invariant i < |tokens| ==> NotAfter(columns.line, columns.visited, tokens[i].line, tokens[i].utf16)
      invariant |mappings| == i && forall k | 0 <= k < i :: mappings[k] == Mapped(tokens[k], js)
    {
      var token := tokens[i];
      var jsColumn := columns.Visit(token.line, token.utf16);
      mappings := mappings + [Mapping(token.line, jsColumn, token.tsLine, token.tsColumn)];
    }
    TableIsSorted(tokens, js, mappings);
  }

  lemma TableIsSorted(tokens: seq<Token>, js: string, mappings: seq<Mapping>)
    requires InOutputOrder(tokens)
    requires |mappings| == |tokens| && forall i | 0 <= i < |tokens| :: mappings[i] == Mapped(tokens[i], js)
    ensures Sorted(mappings)
  {
    forall i, j | 0 <= i < j < |mappings|
      ensures NotAfter(mappings[i].jsLine, mappings[i].jsColumn, mappings[j].jsLine, mappings[j].jsColumn)
    {
      MappedKeepsOrder(tokens[i], tokens[j], js);
    }
  }

  // ---------------------------------------------------------------------- lookups

  predicate AtOrBefore(mapping: Mapping, line: nat, column: nat) {
    NotAfter(mapping.jsLine, mapping.jsColumn, line, column)
  }

  /** How many mappings come at or before a position. */
  method PartitionPoint(mappings: seq<Mapping>, line: nat, column: nat) returns (after: nat)
    requires Sorted(mappings)
    ensures after <= |mappings|
    ensures forall i | 0 <= i < |mappings| :: AtOrBefore(mappings[i], line, column) <==> i < after
  {
    var low, high := 0, |mappings|;
    while low < high
      invariant 0 <= low <= high <= |mappings|
      invariant forall i | 0 <= i < low :: AtOrBefore(mappings[i], line, column)
      invariant forall i | high <= i < |mappings| :: !AtOrBefore(mappings[i], line, column)
    {
      var middle := (low + high) / 2;
      if AtOrBefore(mappings[middle], line, column) {
        low := middle + 1;
      } else {
        high := middle;
      }
    }
    after := low;
  }

  /** Looks a position up, both sides counted from one: the nearest mapping that is not
      after it, if that is on its line. */
  method OriginalPosition(mappings: seq<Mapping>, jsLine: nat, jsColumn: nat) returns (position: Option<(nat, nat)>)
    requires Sorted(mappings)
    ensures position.Some? <==> jsLine > 0 && jsColumn > 0 && exists i | 0 <= i < |mappings| ::
      mappings[i].jsLine == jsLine - 1 && mappings[i].jsColumn <= jsColumn - 1
    ensures position.Some? ==> exists i | 0 <= i < |mappings| ::
      && mappings[i].jsLine == jsLine - 1 && mappings[i].jsColumn <= jsColumn - 1
      && position.value == (mappings[i].tsLine + 1, mappings[i].tsColumn + 1)
      && forall j | i < j < |mappings| :: mappings[j].jsLine != jsLine - 1 || mappings[j].jsColumn > jsColumn - 1
  {
    if jsLine == 0 || jsColumn == 0 {
      return None;
    }
    var after := PartitionPoint(mappings, jsLine - 1, jsColumn - 1);
    if after == 0 {
      return None;
    }
    var mapping := mappings[after - 1];
    if mapping.jsLine != jsLine - 1 {
      assert forall i | 0 <= i < after :: mappings[i].jsLine < jsLine - 1;
      return None;
    }
    position := Some((mapping.tsLine + 1, mapping.tsColumn + 1));
  }
}
