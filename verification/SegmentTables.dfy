// The four binary tables of a Segment: what is written, what is accepted when read back.

module SegmentTables {
  import opened Common
  import opened BinaryRecords

  type U32 = x: nat | x < 0x1_0000_0000
  type U64 = x: nat | x < 0x1_0000_0000_0000_0000
  type I64 = x: int | -0x8000_0000_0000_0000 <= x < 0x8000_0000_0000_0000

  /** The two's complement reading of a 64-bit word and back. */
  function Signed(u: U64): I64 {
    if u < 0x8000_0000_0000_0000 then u else u - 0x1_0000_0000_0000_0000
  }

  function Unsigned(i: I64): U64 {
    if i >= 0 then i else i + 0x1_0000_0000_0000_0000
  }

  // ---------------------------------------------------------------- SHA-256 in hex

  predicate IsHexDigit(b: Byte) {
    ('0' as nat <= b <= '9' as nat) || ('a' as nat <= b <= 'f' as nat)
  }

  /** validSha256 */
  predicate ValidSha256(s: Bytes) {
    |s| == 64 && forall i :: 0 <= i < 64 ==> IsHexDigit(s[i])
  }

  function HexValue(b: Byte): (v: nat)
    requires IsHexDigit(b)
    ensures v < 16
  {
    if b <= '9' as nat then b - '0' as nat else b - 'a' as nat + 10
  }

  function HexDigit(v: nat): (b: Byte)
    requires v < 16
    ensures IsHexDigit(b) && HexValue(b) == v
  {
    if v < 10 then v + '0' as nat else v - 10 + 'a' as nat
  }

  lemma DigitOfValue(b: Byte)
    requires IsHexDigit(b)
    ensures HexDigit(HexValue(b)) == b
  {
  }

  /** appendSha256Bytes */
  function HexToBytes(hex: Bytes): (b: Bytes)
    requires ValidSha256(hex)
    ensures |b| == 32
  {
    seq(32, i requires 0 <= i < 32 => 16 * HexValue(hex[2 * i]) + HexValue(hex[2 * i + 1]))
  }

  /** bytesToSha256 */
  function BytesToHex(b: Bytes): (hex: Bytes)
    requires |b| == 32
    ensures ValidSha256(hex)
  {
    seq(64, i requires 0 <= i < 64 => HexDigit(if i % 2 == 0 then b[i / 2] / 16 else b[i / 2] % 16))
  }

  lemma HexRoundTrip(hex: Bytes)
    requires ValidSha256(hex)
    ensures BytesToHex(HexToBytes(hex)) == hex
  {
    var back := BytesToHex(HexToBytes(hex));
    forall i | 0 <= i < 64
      ensures back[i] == hex[i]
    {
      var k := i / 2;
      var hi, lo := HexValue(hex[2 * k]), HexValue(hex[2 * k + 1]);
      assert HexToBytes(hex)[k] == 16 * hi + lo;
      assert (16 * hi + lo) / 16 == hi && (16 * hi + lo) % 16 == lo;
      DigitOfValue(hex[i]);
    }
  }

  lemma BytesRoundTrip(b: Bytes)
    requires |b| == 32
    ensures HexToBytes(BytesToHex(b)) == b
  {
    var hex := BytesToHex(b);
    forall i | 0 <= i < 32
      ensures HexToBytes(hex)[i] == b[i]
    {
      assert hex[2 * i] == HexDigit(b[i] / 16) && hex[2 * i + 1] == HexDigit(b[i] % 16);
    }
  }

  // ---------------------------------------------------------------- tables in general

  const FORMAT_VERSION: nat := 1
  const HEADER_SIZE: nat := 20

  function Ascii(s: string): (b: Bytes)
    ensures |b| == |s|
  {
    seq(|s|, i requires 0 <= i < |s| => s[i] as int % 256)
  }

  /** How a record of type T becomes fields and back; `valid` is the check made before the fields
      are appended. */
  datatype Table<!T> = Table(magic: Bytes, layout: Layout, valid: T -> bool, fields: T -> Record, of: Record -> T)

  predicate Writable<T>(t: Table<T>, x: T) {
    t.valid(x) && RecordFits(t.layout, t.fields(x))
  }

  /** The fields of a table are a bijection between its writable records and what fits the layout. */
  ghost predicate Faithful<T(!new)>(t: Table<T>) {
    && |t.magic| == 8
    && (forall x: T :: t.valid(x) ==>
          |t.fields(x)| == |t.layout| && forall i :: 0 <= i < |t.layout| ==> WellTyped(t.layout[i], t.fields(x)[i]))
    && (forall x: T :: Writable(t, x) ==> t.of(t.fields(x)) == x)
    && (forall r: Record :: RecordFits(t.layout, r) ==> t.valid(t.of(r)) && t.fields(t.of(r)) == r)
  }

  function Header(magic: Bytes, count: nat): Bytes {
    magic + LittleEndian(FORMAT_VERSION, 4) + LittleEndian(count, 8)
  }

  function Rows<T>(t: Table<T>, items: seq<T>): seq<Record> {
    seq(|items|, i requires 0 <= i < |items| => t.fields(items[i]))
  }

  function Items<T>(t: Table<T>, rows: seq<Record>): seq<T> {
    seq(|rows|, i requires 0 <= i < |rows| => t.of(rows[i]))
  }

  predicate AllWritable<T>(t: Table<T>, items: seq<T>) {
    |items| < 0x1_0000_0000_0000_0000 && forall i :: 0 <= i < |items| ==> Writable(t, items[i])
  }

  lemma RowsFit<T>(t: Table<T>, items: seq<T>)
    requires AllWritable(t, items)
    ensures RecordsFit(t.layout, Rows(t, items))
  {
    forall r <- Rows(t, items)
      ensures RecordFits(t.layout, r)
    {
      var i :| 0 <= i < |items| && Rows(t, items)[i] == r;
      assert Writable(t, items[i]);
    }
  }

  /** What the serializers write. */
  function TableBytes<T>(t: Table<T>, items: seq<T>): Bytes
    requires AllWritable(t, items)
  {
    RowsFit(t, items);
    Header(t.magic, |items|) + RecordsBytes(t.layout, Rows(t, items))
  }

  /** The header checks at the start of every load function. */
  predicate HeaderOk(magic: Bytes, content: Bytes, count: nat) {
    && At(content, 0, 8, magic)
    && ReadField(Word(4), content, 8) == Got(Number(FORMAT_VERSION), 12)
    && ReadField(Word(8), content, 12) == Got(Number(count), 20)
  }

  lemma HeaderExact(magic: Bytes, content: Bytes, count: nat)
    requires |magic| == 8
    ensures HeaderOk(magic, content, count)
       <==> count < 0x1_0000_0000_0000_0000 && At(content, 0, HEADER_SIZE, Header(magic, count))
  {
    hide LittleEndian, ReadField, At;
    LimitFits();
    var version, size := LittleEndian(FORMAT_VERSION, 4), LittleEndian(count, 8);
    AtJoin(content, 0, HEADER_SIZE, magic + version, size);
    AtJoin(content, 0, 12, magic, version);
    if |content| >= 12 {
      FieldExact(Word(4), content, 8, Number(FORMAT_VERSION), 12);
      FieldExact(Word(8), content, 12, Number(count), 20);
    } else {
      AtShort(content, 0, 8, magic);
      AtShort(content, 12, 20, size);
      AtShort(content, 8, 12, version);
      if |content| >= 8 {
        FieldExact(Word(4), content, 8, Number(FORMAT_VERSION), 12);
      }
    }
  }

  lemma AtShort(c: Bytes, o: nat, n: nat, e: Bytes)
    ensures At(c, o, n, e) ==> n <= |c|
  {
  }

  /** The rows of a table, if its header and length are right. */
  function RawTable(magic: Bytes, layout: Layout, content: Bytes, count: nat): Option<seq<Record>> {
    if |content| < HEADER_SIZE || !HeaderOk(magic, content, count) then None
    else
      match ReadRecords(layout, content, HEADER_SIZE, count)
      case Fail => None
      case Got(rows, next) => if next == |content| then Some(rows) else None
  }

  lemma RawExact(magic: Bytes, layout: Layout, content: Bytes, rows: seq<Record>)
    requires |magic| == 8
    ensures RawTable(magic, layout, content, |rows|) == Some(rows)
       <==> && RecordsFit(layout, rows) && |rows| < 0x1_0000_0000_0000_0000
            && content == Header(magic, |rows|) + RecordsBytes(layout, rows)
  {
    hide ReadRecords, HeaderOk, RecordsFit, RecordsBytes, Header, LittleEndian;
    var count := |rows|;
    HeaderExact(magic, content, count);
    assert |Header(magic, count)| == HEADER_SIZE by {
      assert Header(magic, count) == magic + LittleEndian(FORMAT_VERSION, 4) + LittleEndian(count, 8) by {
        HeaderIs(magic, count);
      }
    }
    if |content| >= HEADER_SIZE {
      RecordsExact(layout, content, HEADER_SIZE, rows, count, |content|);
      if RecordsFit(layout, rows) {
        AtJoin(content, 0, |content|, Header(magic, count), RecordsBytes(layout, rows));
        assert content[0..|content|] == content;
      }
    }
  }

  lemma HeaderIs(magic: Bytes, count: nat)
    ensures Header(magic, count) == magic + LittleEndian(FORMAT_VERSION, 4) + LittleEndian(count, 8)
  {
  }

  function Decode<T>(t: Table<T>, content: Bytes, count: nat): Option<seq<T>> {
    match RawTable(t.magic, t.layout, content, count)
    case None => None
    case Some(rows) => Some(Items(t, rows))
  }

  /** Decoding gives a list exactly when the content is what that list is written as: the round
      trip, and no other content is accepted. */
  lemma DecodeExact<T(!new)>(t: Table<T>, content: Bytes, items: seq<T>)
    requires Faithful(t)
    ensures Decode(t, content, |items|) == Some(items)
       <==> AllWritable(t, items) && content == TableBytes(t, items)
  {
    hide RawTable, RecordsFit, RecordsBytes, Header, RecordFits, HeaderOk;
    var raw := RawTable(t.magic, t.layout, content, |items|);
    if raw.Some? && Items(t, raw.value) == items {
      var rows := raw.value;
      assert |rows| == |items|;
      RawExact(t.magic, t.layout, content, rows);
      RowsOfItems(t, rows);
    }
    if AllWritable(t, items) && content == TableBytes(t, items) {
      RowsFit(t, items);
      RawExact(t.magic, t.layout, content, Rows(t, items));
      assert |Rows(t, items)| == |items|;
      ItemsOfRows(t, items);
    }
  }

  lemma RowsOfItems<T(!new)>(t: Table<T>, rows: seq<Record>)
    requires Faithful(t) && RecordsFit(t.layout, rows)
    ensures Rows(t, Items(t, rows)) == rows
    ensures forall i :: 0 <= i < |rows| ==> Writable(t, Items(t, rows)[i])
  {
    hide RecordFits, WellTyped;
    var items := Items(t, rows);
    forall i | 0 <= i < |rows|
      ensures Rows(t, items)[i] == rows[i] && Writable(t, items[i])
    {
      assert RecordFits(t.layout, rows[i]);
    }
  }

  lemma ItemsOfRows<T(!new)>(t: Table<T>, items: seq<T>)
    requires Faithful(t) && AllWritable(t, items)
    ensures Items(t, Rows(t, items)) == items
  {
    hide WellTyped;
    forall i | 0 <= i < |items|
      ensures Items(t, Rows(t, items))[i] == items[i]
    {
      assert Writable(t, items[i]);
    }
  }

  // ---------------------------------------------------------------- decoding record by record

  /** `items` are the first records of the table in `content`, which end at `next`. */
  predicate ReadSoFar<T(==)>(t: Table<T>, content: Bytes, items: seq<T>, next: nat) {
    && HEADER_SIZE <= |content|
    && var rows := ReadRecords(t.layout, content, HEADER_SIZE, |items|);
       rows.Got? && rows.next == next && Items(t, rows.value) == items
  }

  lemma StartReading<T>(t: Table<T>, content: Bytes)
    requires HEADER_SIZE <= |content|
    ensures ReadSoFar(t, content, [], HEADER_SIZE)
  {
  }

  lemma ReadStep(layout: Layout, c: Bytes, o: nat, count: nat)
    requires o <= |c| && ReadRecords(layout, c, o, count).Got?
    ensures var before, after := ReadRecords(layout, c, o, count), ReadRecords(layout, c, o, count + 1);
            var r := ReadRecord(layout, c, before.next);
            after == if r.Fail? then Fail else Got(before.value + [r.value], r.next)
  {
    hide ReadRecord;
  }

  lemma ReadOneMore<T>(t: Table<T>, content: Bytes, items: seq<T>, next: nat)
    requires ReadSoFar(t, content, items, next) && next <= |content|
    ensures var r := ReadRecord(t.layout, content, next);
            if r.Fail? then ReadRecords(t.layout, content, HEADER_SIZE, |items| + 1).Fail?
            else ReadSoFar(t, content, items + [t.of(r.value)], r.next)
  {
    hide ReadRecord, ReadRecords;
    ReadStep(t.layout, content, HEADER_SIZE, |items|);
    var rows := ReadRecords(t.layout, content, HEADER_SIZE, |items|).value;
    var r := ReadRecord(t.layout, content, next);
    if r.Got? {
      assert Items(t, rows + [r.value]) == Items(t, rows) + [t.of(r.value)];
      assert |items + [t.of(r.value)]| == |items| + 1;
    }
  }

  /** A table that decodes can be read record by record, and gives the same records. */
  lemma DecodedSoFar<T>(t: Table<T>, content: Bytes, count: nat, some: nat)
    requires some <= count && Decode(t, content, count).Some?
    ensures |Decode(t, content, count).value| == count && HEADER_SIZE <= |content|
    ensures ReadRecords(t.layout, content, HEADER_SIZE, some).Got?
    ensures Items(t, ReadRecords(t.layout, content, HEADER_SIZE, some).value)
         == Decode(t, content, count).value[..some]
  {
    hide HeaderOk;
    ReadPrefix(t.layout, content, HEADER_SIZE, some, count);
  }

  lemma WholeTable<T>(t: Table<T>, content: Bytes, items: seq<T>, next: nat)
    requires HEADER_SIZE <= |content| && HeaderOk(t.magic, content, |items|) && ReadSoFar(t, content, items, next)
    ensures Decode(t, content, |items|) == if next == |content| then Some(items) else None
  {
    hide HeaderOk, ReadRecords;
  }

  lemma NoHeader<T>(t: Table<T>, content: Bytes, count: nat)
    requires |content| < HEADER_SIZE || !HeaderOk(t.magic, content, count)
    ensures Decode(t, content, count) == None
  {
    hide HeaderOk;
  }

  /** The next record, when `items` have been read. On failure the table does not decode. */
  method NextItem<T(==)>(t: Table<T>, reader: BinaryReader, items: seq<T>, count: nat) returns (r: Option<T>)
    requires reader.Valid() && ReadSoFar(t, reader.content, items, reader.offset) && |items| < count
    modifies reader
    ensures reader.Valid()
    ensures r == None ==> Decode(t, reader.content, count) == None
    ensures r.Some? ==> ReadSoFar(t, reader.content, items + [r.value], reader.offset)
    ensures r.Some? && Decode(t, reader.content, count).Some? ==>
              var all := Decode(t, reader.content, count).value;
              |all| == count && all[..|items|] == items && all[|items|] == r.value
  {
    hide Decode, Items, ReadRecord;
    ReadOneMore(t, reader.content, items, reader.offset);
    if Decode(t, reader.content, count).Some? {
      DecodedSoFar(t, reader.content, count, |items| + 1);
    }
    var row := reader.ReadAll(t.layout);
    ghost var all := Decode(t, reader.content, count);
    if row.Some? && all.Some? {
      assert all.value[..|items| + 1] == items + [t.of(row.value)];
      assert all.value[..|items|] == all.value[..|items| + 1][..|items|];
    }
    r := if row == None then None else Some(t.of(row.value));
  }

  // ---------------------------------------------------------------- writing and headers

  lemma NextRow<T>(t: Table<T>, items: seq<T>, i: nat)
    requires i < |items| && AllWritable(t, items[..i]) && Writable(t, items[i]) && |items| < 0x1_0000_0000_0000_0000
    ensures AllWritable(t, items[..i + 1])
    ensures RecordsFit(t.layout, Rows(t, items[..i])) && RecordsFit(t.layout, Rows(t, items[..i + 1]))
    ensures RecordsBytes(t.layout, Rows(t, items[..i + 1]))
         == RecordsBytes(t.layout, Rows(t, items[..i])) + RecordBytes(t.layout, t.fields(items[i]))
  {
    hide RecordFits, RecordBytes;
    var before, after := items[..i], items[..i + 1];
    assert after == before + [items[i]];
    assert AllWritable(t, after) by {
      forall k | 0 <= k < |after|
        ensures Writable(t, after[k])
      {
        assert k < i ==> after[k] == before[k];
      }
    }
    RowsFit(t, before);
    RowsFit(t, after);
    assert Rows(t, after) == Rows(t, before) + [t.fields(items[i])];
    assert Rows(t, after)[..i] == Rows(t, before);
  }

  lemma NoRows<T>(t: Table<T>, items: seq<T>)
    ensures AllWritable(t, items[..0]) && RecordsFit(t.layout, Rows(t, items[..0]))
    ensures RecordsBytes(t.layout, Rows(t, items[..0])) == []
  {
    assert Rows(t, items[..0]) == [];
  }

  lemma NotWritable<T>(t: Table<T>, items: seq<T>, i: nat)
    requires i < |items| && !Writable(t, items[i])
    ensures !AllWritable(t, items)
  {
  }

  lemma TableIs<T>(t: Table<T>, items: seq<T>)
    requires AllWritable(t, items)
    ensures RecordsFit(t.layout, Rows(t, items))
    ensures TableBytes(t, items) == Header(t.magic, |items|) + RecordsBytes(t.layout, Rows(t, items))
  {
    RowsFit(t, items);
  }

  /** One record, or the exception about a digest or a string the format cannot hold. */
  method AppendItem<T(!new)>(t: Table<T>, item: T, writer: BinaryWriter) returns (ok: bool)
    requires Faithful(t)
    modifies writer
    ensures ok == Writable(t, item)
    ensures ok ==> writer.output == old(writer.output) + RecordBytes(t.layout, t.fields(item))
  {
    hide RecordFits, RecordBytes, FieldFits, WellTyped;
    ok := t.valid(item);
    if ok {
      ok := writer.AppendAll(t.layout, t.fields(item));
    }
  }

  /** The serializers: the header, then every record. */
  method Serialize<T(!new)>(t: Table<T>, items: seq<T>) returns (r: Option<Bytes>)
    requires Faithful(t) && |items| < 0x1_0000_0000_0000_0000
    ensures r.Some? <==> AllWritable(t, items)
    ensures r.Some? ==> r.value == TableBytes(t, items)
  {
    hide *;
    var writer := new BinaryWriter();
    writer.output := writer.output + t.magic;
    writer.AppendWord(FORMAT_VERSION, 4);
    writer.AppendWord(|items|, 8);
    HeaderIs(t.magic, |items|);
    NoRows(t, items);
    var i := 0;
    while i < |items|
      invariant i <= |items| && AllWritable(t, items[..i])
      invariant RecordsFit(t.layout, Rows(t, items[..i]))
      invariant writer.output == Header(t.magic, |items|) + RecordsBytes(t.layout, Rows(t, items[..i]))
    {
      var ok := AppendItem(t, items[i], writer);
      if !ok {
        NotWritable(t, items, i);
        return None;
      }
      NextRow(t, items, i);
      i := i + 1;
    }
    assert items[..i] == items;
    TableIs(t, items);
    r := Some(writer.output);
  }

  /** requireMagic and the two header words. */
  method ReadHeader(reader: BinaryReader, magic: Bytes, count: nat) returns (ok: bool)
    requires |magic| == 8 && reader.offset == 0
    modifies reader
    ensures reader.Valid()
    ensures ok <==> |reader.content| >= HEADER_SIZE && HeaderOk(magic, reader.content, count)
    ensures ok ==> reader.offset == HEADER_SIZE
  {
    ok := reader.RequireMagic(magic);
    if ok {
      var version := reader.ReadWord(4);
      ok := version == Some(FORMAT_VERSION);
      if ok {
        var n := reader.ReadWord(8);
        ok := n == Some(count);
      }
    }
  }
}
