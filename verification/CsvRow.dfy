// parseCsvRow: the quoted CSV reader inverts a quoting printer (RFC 4180, section 2).

module CsvRow {
  import opened Common

  const QUOTE: Byte := 34
  const COMMA: Byte := 44

  // ---------------------------------------------------------------- the printer

  /** The content of a quoted field, each quote doubled. */
  function Escaped(field: Bytes): Bytes {
    if field == [] then []
    else (if field[0] == QUOTE then [QUOTE, QUOTE] else [field[0]]) + Escaped(field[1..])
  }

  /** A field without commas and quotes may stand unquoted. */
  predicate IsPlain(field: Bytes) {
    QUOTE !in field && COMMA !in field
  }

  /** One field, quoted or plain. */
  datatype Cell = Cell(field: Bytes, quoted: bool)

  predicate Printable(cell: Cell) {
    cell.quoted || IsPlain(cell.field)
  }

  function PrintCell(cell: Cell): Bytes {
    if cell.quoted then [QUOTE] + Escaped(cell.field) + [QUOTE] else cell.field
  }

  /** A row: the cells with commas between them. */
  function PrintRow(cells: seq<Cell>): Bytes
    requires cells != []
  {
    if |cells| == 1 then PrintCell(cells[0]) else PrintCell(cells[0]) + [COMMA] + PrintRow(cells[1..])
  }

  function FieldsOf(cells: seq<Cell>): seq<Bytes> {
    seq(|cells|, i requires 0 <= i < |cells| => cells[i].field)
  }

  // ---------------------------------------------------------------- the reader as a function

  /** Where the reader is: before or in a plain field, in a quoted field, or after a closing quote. */
  datatype Mode = Plain | Quoted | Closed

  /** What the rest of the line gives, when `field` has been collected. None is a malformed row. */
  function ParseFrom(line: Bytes, field: Bytes, mode: Mode): (r: Option<seq<Bytes>>)
    ensures r.Some? ==> r.value != []
    decreases |line|
  {
    if line == [] then if mode.Quoted? then None else Some([field])
    else
      var b := line[0];
      match mode
      case Quoted =>
        if b != QUOTE then ParseFrom(line[1..], field + [b], Quoted)
        else if |line| > 1 && line[1] == QUOTE then ParseFrom(line[2..], field + [QUOTE], Quoted)
        else ParseFrom(line[1..], field, Closed)
      case Closed => if b != COMMA then None else Prepend(field, ParseFrom(line[1..], [], Plain))
      case Plain =>
        if b == COMMA then Prepend(field, ParseFrom(line[1..], [], Plain))
        else if b == QUOTE then if field != [] then None else ParseFrom(line[1..], [], Quoted)
        else ParseFrom(line[1..], field + [b], Plain)
  }

  function Prepend(field: Bytes, rest: Option<seq<Bytes>>): Option<seq<Bytes>> {
    match rest
    case None => None
    case Some(fields) => Some([field] + fields)
  }

  /** One byte of ParseFrom. */
  lemma ReadByte(line: Bytes, field: Bytes, mode: Mode)
    requires line != []
    ensures mode.Quoted? && line[0] != QUOTE ==>
              ParseFrom(line, field, mode) == ParseFrom(line[1..], field + [line[0]], Quoted)
    ensures mode.Quoted? && line[0] == QUOTE && |line| > 1 && line[1] == QUOTE ==>
              ParseFrom(line, field, mode) == ParseFrom(line[2..], field + [QUOTE], Quoted)
    ensures mode.Quoted? && line[0] == QUOTE && !(|line| > 1 && line[1] == QUOTE) ==>
              ParseFrom(line, field, mode) == ParseFrom(line[1..], field, Closed)
    ensures mode.Closed? && line[0] != COMMA ==> ParseFrom(line, field, mode) == None
    ensures !mode.Quoted? && line[0] == COMMA ==>
              ParseFrom(line, field, mode) == Prepend(field, ParseFrom(line[1..], [], Plain))
    ensures mode.Plain? && line[0] == QUOTE ==>
              ParseFrom(line, field, mode) == if field != [] then None else ParseFrom(line[1..], [], Quoted)
    ensures mode.Plain? && line[0] != QUOTE && line[0] != COMMA ==>
              ParseFrom(line, field, mode) == ParseFrom(line[1..], field + [line[0]], Plain)
  {
  }

  lemma ReadEnd(field: Bytes, mode: Mode)
    ensures ParseFrom([], field, mode) == if mode.Quoted? then None else Some([field])
  {
  }

  /** parseCsvRow */
  method ParseCsvRow(line: Bytes) returns (ok: bool, fields: seq<Bytes>)
    ensures ok <==> ParseFrom(line, [], Plain).Some?
    ensures ok ==> fields == ParseFrom(line, [], Plain).value
  {
    hide ParseFrom;
    fields := [];
    var field: Bytes := [];
    var quoted, quoteClosed := false, false;
    var index := 0;
    assert line[0..] == line;
    NothingBefore(ParseFrom(line, [], Plain));
    while index < |line|
      invariant index <= |line| && !(quoted && quoteClosed)
      invariant Resumes(line, fields, field, quoted, quoteClosed, index)
    {
      ghost var rest := line[index..];
      ReadByte(rest, field, ModeOf(quoted, quoteClosed));
      var value := line[index];
      assert rest[1..] == line[index + 1..];
      if quoted {
        if value == QUOTE {
          if index + 1 < |line| && line[index + 1] == QUOTE {
            assert rest[1] == QUOTE && rest[2..] == line[index + 2..];
            field := field + [QUOTE];
            index := index + 1;
          } else {
            quoted, quoteClosed := false, true;
          }
        } else {
          field := field + [value];
        }
      } else if quoteClosed {
        if value != COMMA {
          return false, fields;
        }
        PrependLater(fields, field, ParseFrom(rest[1..], [], Plain));
        fields, field, quoteClosed := fields + [field], [], false;
      } else if value == COMMA {
        PrependLater(fields, field, ParseFrom(rest[1..], [], Plain));
        fields, field := fields + [field], [];
      } else if value == QUOTE {
        if field != [] {
          return false, fields;
        }
        quoted := true;
      } else {
        field := field + [value];
      }
      index := index + 1;
    }
    assert line[index..] == [];
    ReadEnd(field, ModeOf(quoted, quoteClosed));
    if quoted {
      return false, fields;
    }
    fields := fields + [field];
    ok := true;
  }

  ghost function ModeOf(quoted: bool, quoteClosed: bool): Mode {
    if quoted then Quoted else if quoteClosed then Closed else Plain
  }

  function Append(fields: seq<Bytes>, rest: Option<seq<Bytes>>): Option<seq<Bytes>> {
    match rest
    case None => None
    case Some(more) => Some(fields + more)
  }

  ghost predicate Resumes(line: Bytes, fields: seq<Bytes>, field: Bytes, quoted: bool, quoteClosed: bool, index: nat)
    requires index <= |line|
  {
    ParseFrom(line, [], Plain) == Append(fields, ParseFrom(line[index..], field, ModeOf(quoted, quoteClosed)))
  }

  lemma NothingBefore(rest: Option<seq<Bytes>>)
    ensures Append([], rest) == rest
  {
    if rest.Some? {
      assert [] + rest.value == rest.value;
    }
  }

  lemma PrependLater(fields: seq<Bytes>, field: Bytes, rest: Option<seq<Bytes>>)
    ensures Append(fields, Prepend(field, rest)) == Append(fields + [field], rest)
  {
    if rest.Some? {
      assert fields + ([field] + rest.value) == fields + [field] + rest.value;
    }
  }

  // ---------------------------------------------------------------- reading inverts printing

  lemma {:induction false} ReadPlain(field: Bytes, before: Bytes, rest: Bytes)
    requires IsPlain(field)
    ensures ParseFrom(field + rest, before, Plain) == ParseFrom(rest, before + field, Plain)
    decreases |field|
  {
    if field == [] {
      assert field + rest == rest && before + field == before;
    } else {
      assert (field + rest)[1..] == field[1..] + rest;
      assert field[0] in field;
      ReadPlain(field[1..], before + [field[0]], rest);
      assert before + [field[0]] + field[1..] == before + field;
    }
  }

  lemma {:induction false} ReadQuoted(field: Bytes, before: Bytes, rest: Bytes)
    requires rest == [] || rest[0] != QUOTE
    ensures ParseFrom(Escaped(field) + [QUOTE] + rest, before, Quoted) == ParseFrom(rest, before + field, Closed)
    decreases |field|
  {
    var line := Escaped(field) + [QUOTE] + rest;
    if field == [] {
      assert line == [QUOTE] + rest && line[1..] == rest && before + field == before;
    } else {
      ReadQuoted(field[1..], before + [field[0]], rest);
      assert before + [field[0]] + field[1..] == before + field;
      if field[0] == QUOTE {
        assert line[2..] == Escaped(field[1..]) + [QUOTE] + rest;
      } else {
        assert line[1..] == Escaped(field[1..]) + [QUOTE] + rest;
      }
    }
  }

  lemma ReadCell(cell: Cell, rest: Bytes)
    requires Printable(cell) && (rest == [] || rest[0] == COMMA)
    ensures ParseFrom(PrintCell(cell) + rest, [], Plain)
         == ParseFrom(rest, cell.field, if cell.quoted then Closed else Plain)
  {
    if cell.quoted {
      var line := PrintCell(cell) + rest;
      assert line[0] == QUOTE && line[1..] == Escaped(cell.field) + [QUOTE] + rest;
      ReadQuoted(cell.field, [], rest);
      assert [] + cell.field == cell.field;
    } else {
      ReadPlain(cell.field, [], rest);
      assert [] + cell.field == cell.field;
    }
  }

  /** Reading a printed row gives its fields, whichever cells were quoted. */
  lemma {:induction false} ReadRow(cells: seq<Cell>)
    requires cells != [] && forall c <- cells :: Printable(c)
    ensures ParseFrom(PrintRow(cells), [], Plain) == Some(FieldsOf(cells))
    decreases |cells|
  {
    if |cells| == 1 {
      ReadCell(cells[0], []);
      assert PrintCell(cells[0]) + [] == PrintRow(cells);
      assert FieldsOf(cells) == [cells[0].field];
    } else {
      var rest := [COMMA] + PrintRow(cells[1..]);
      assert PrintRow(cells) == PrintCell(cells[0]) + rest;
      ReadCell(cells[0], rest);
      assert rest[1..] == PrintRow(cells[1..]);
      ReadRow(cells[1..]);
      assert FieldsOf(cells) == [cells[0].field] + FieldsOf(cells[1..]);
    }
  }

  // ---------------------------------------------------------------- and conversely

  /** How the cell that is being read was printed so far. */
  function PrintedSoFar(field: Bytes, mode: Mode): Bytes {
    match mode
    case Plain => field
    case Quoted => [QUOTE] + Escaped(field)
    case Closed => [QUOTE] + Escaped(field) + [QUOTE]
  }

  lemma EscapedNothing()
    ensures Escaped([]) == []
  {
  }

  lemma {:induction false} EscapedSnoc(field: Bytes, b: Byte)
    ensures Escaped(field + [b]) == Escaped(field) + if b == QUOTE then [QUOTE, QUOTE] else [b]
  {
    if field == [] {
      assert field + [b] == [b];
    } else {
      assert (field + [b])[1..] == field[1..] + [b];
      EscapedSnoc(field[1..], b);
    }
  }

  /** One byte read is one byte printed. */
  lemma PrintedByte(line: Bytes, field: Bytes, mode: Mode)
    requires line != []
    ensures mode.Quoted? && line[0] != QUOTE ==>
              PrintedSoFar(field + [line[0]], Quoted) + line[1..] == PrintedSoFar(field, mode) + line
    ensures mode.Quoted? && line[0] == QUOTE && |line| > 1 && line[1] == QUOTE ==>
              PrintedSoFar(field + [QUOTE], Quoted) + line[2..] == PrintedSoFar(field, mode) + line
    ensures mode.Quoted? && line[0] == QUOTE ==>
              PrintedSoFar(field, Closed) + line[1..] == PrintedSoFar(field, mode) + line
    ensures !mode.Quoted? ==> PrintCell(Cell(field, mode.Closed?)) == PrintedSoFar(field, mode)
    ensures mode.Plain? && field == [] && line[0] == QUOTE ==>
              PrintedSoFar([], Quoted) + line[1..] == PrintedSoFar(field, mode) + line
    ensures mode.Plain? ==> PrintedSoFar(field + [line[0]], Plain) + line[1..] == PrintedSoFar(field, mode) + line
  {
    hide Escaped;
    EscapedSnoc(field, line[0]);
    EscapedNothing();
    assert line == [line[0]] + line[1..];
  }

  /** Whatever the reader accepts is some printing of the fields it returns. */
  lemma {:induction false} AcceptedIsPrinted(line: Bytes, field: Bytes, mode: Mode) returns (cells: seq<Cell>)
    requires ParseFrom(line, field, mode).Some? && (mode.Plain? ==> IsPlain(field))
    ensures cells != [] && (forall c <- cells :: Printable(c))
    ensures FieldsOf(cells) == ParseFrom(line, field, mode).value
    ensures PrintRow(cells) == PrintedSoFar(field, mode) + line
    decreases |line|
  {
    hide ParseFrom, PrintRow, FieldsOf, PrintedSoFar, PrintCell;
    if line == [] {
      ReadEnd(field, mode);
      cells := [Cell(field, mode.Closed?)];
      OneCell(cells[0]);
      PrintedEnd(field, mode);
      return;
    }
    ReadByte(line, field, mode);
    PrintedByte(line, field, mode);
    var b := line[0];
    if mode.Quoted? {
      if b != QUOTE {
        cells := AcceptedIsPrinted(line[1..], field + [b], Quoted);
      } else if |line| > 1 && line[1] == QUOTE {
        cells := AcceptedIsPrinted(line[2..], field + [QUOTE], Quoted);
      } else {
        cells := AcceptedIsPrinted(line[1..], field, Closed);
      }
    } else if b == COMMA {
      var more := AcceptedIsPrinted(line[1..], [], Plain);
      cells := AddCell(Cell(field, mode.Closed?), more);
      PrintedNothing();
      assert [COMMA] + line[1..] == line && [] + line[1..] == line[1..];
    } else if b == QUOTE {
      cells := AcceptedIsPrinted(line[1..], [], Quoted);
    } else {
      cells := AcceptedIsPrinted(line[1..], field + [b], Plain);
    }
  }

  lemma PrintedNothing()
    ensures PrintedSoFar([], Plain) == []
  {
  }

  lemma PrintedEnd(field: Bytes, mode: Mode)
    requires !mode.Quoted?
    ensures PrintCell(Cell(field, mode.Closed?)) == PrintedSoFar(field, mode) + []
  {
    assert PrintedSoFar(field, mode) + [] == PrintedSoFar(field, mode);
  }

  lemma OneCell(cell: Cell)
    ensures FieldsOf([cell]) == [cell.field] && PrintRow([cell]) == PrintCell(cell)
  {
  }

  lemma AddCell(cell: Cell, more: seq<Cell>) returns (cells: seq<Cell>)
    requires Printable(cell) && more != [] && forall c <- more :: Printable(c)
    ensures cells != [] && (forall c <- cells :: Printable(c))
    ensures FieldsOf(cells) == [cell.field] + FieldsOf(more)
    ensures PrintRow(cells) == PrintCell(cell) + ([COMMA] + PrintRow(more))
  {
    cells := [cell] + more;
    assert cells[1..] == more;
  }

  /** A row is accepted with these fields exactly when it is one of their printings. */
  lemma AcceptsExactlyPrintings(line: Bytes, fields: seq<Bytes>)
    ensures ParseFrom(line, [], Plain) == Some(fields)
       <==> exists cells: seq<Cell> ::
              && cells != [] && (forall c <- cells :: Printable(c))
              && FieldsOf(cells) == fields && PrintRow(cells) == line
  {
    if ParseFrom(line, [], Plain) == Some(fields) {
      var cells := AcceptedIsPrinted(line, [], Plain);
      assert PrintedSoFar([], Plain) + line == line;
    }
    if exists cells: seq<Cell> :: && cells != [] && (forall c <- cells :: Printable(c))
                                  && FieldsOf(cells) == fields && PrintRow(cells) == line {
      var cells: seq<Cell> :| && cells != [] && (forall c <- cells :: Printable(c))
                              && FieldsOf(cells) == fields && PrintRow(cells) == line;
      ReadRow(cells);
    }
  }
}
