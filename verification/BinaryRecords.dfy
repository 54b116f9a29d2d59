// Little-endian binary records: what BinaryReader reads is exactly what the append functions write.

module BinaryRecords {
  import opened Common

  /** kStringLimit */
  const STRING_LIMIT: nat := 1024 * 1024

  // ---------------------------------------------------------------- little endian

  function LittleEndian(value: nat, width: nat): (b: Bytes)
    ensures |b| == width
    decreases width
  {
    if width == 0 then [] else [value % 256] + LittleEndian(value / 256, width - 1)
  }

  function FromLittleEndian(b: Bytes): nat {
    if b == [] then 0 else b[0] + 256 * FromLittleEndian(b[1..])
  }

  lemma {:induction false} FromOfTo(value: nat, width: nat)
    requires value < Pow256(width)
    ensures FromLittleEndian(LittleEndian(value, width)) == value
    decreases width
  {
    if width > 0 {
      FromOfTo(value / 256, width - 1);
      assert LittleEndian(value, width)[1..] == LittleEndian(value / 256, width - 1);
    }
  }

  lemma {:induction false} ToOfFrom(b: Bytes)
    ensures FromLittleEndian(b) < Pow256(|b|)
    ensures LittleEndian(FromLittleEndian(b), |b|) == b
  {
    if b != [] {
      ToOfFrom(b[1..]);
    }
  }

  lemma {:induction false} FromSnoc(b: Bytes, x: Byte)
    ensures FromLittleEndian(b + [x]) == FromLittleEndian(b) + x * Pow256(|b|)
  {
    if b != [] {
      FromSnoc(b[1..], x);
      assert (b + [x])[1..] == b[1..] + [x];
      assert x * Pow256(|b|) == 256 * (x * Pow256(|b| - 1));
    }
  }

  lemma {:induction false} ToSnoc(value: nat, width: nat)
    ensures LittleEndian(value, width + 1) == LittleEndian(value, width) + [value / Pow256(width) % 256]
    decreases width
  {
    if width > 0 {
      ToSnoc(value / 256, width - 1);
      DivDiv(value, Pow256(width - 1));
    }
  }

  lemma DivDiv(value: nat, p: nat)
    requires p > 0
    ensures value / 256 / p == value / (256 * p)
  {
    var q, r := value / 256 / p, value / 256 % p;
    assert value == 256 * (q * p + r) + value % 256;
    assert value == (256 * p) * q + (256 * r + value % 256);
    assert 0 <= 256 * r + value % 256 < 256 * p;
    DivUnique(value, 256 * p, q, 256 * r + value % 256);
  }

  lemma DivUnique(value: nat, d: nat, q: nat, r: nat)
    requires r < d && value == d * q + r
    ensures value / d == q
  {
    var k := value / d;
    assert value == d * k + value % d;
    if k < q {
      MulMonotone(k + 1, q, d);
    } else if k > q {
      MulMonotone(q + 1, k, d);
    }
  }

  /** Byte `i` holds the bits from 8 * i on. */
  lemma {:induction false} LittleEndianAt(value: nat, width: nat, i: nat)
    requires i < width
    ensures Pow256(i) > 0 && LittleEndian(value, width)[i] == value / Pow256(i) % 256
    decreases i
  {
    PowPositive(i);
    if i > 0 {
      PowPositive(i - 1);
      LittleEndianAt(value / 256, width - 1, i - 1);
      DivDiv(value, Pow256(i - 1));
    }
  }

  lemma {:induction false} PowPositive(i: nat)
    ensures Pow256(i) > 0
  {
    if i > 0 {
      PowPositive(i - 1);
    }
  }

  // ---------------------------------------------------------------- fields

  /** A fixed-width number, a fixed number of bytes, or a string with its 4-byte length. */
  datatype Kind = Word(width: nat) | Raw(size: nat) | Text

  datatype Field = Number(value: nat) | Data(bytes: Bytes)

  /** What a read at an offset gives: a value and the offset after it, or an exception. */
  datatype Read<+T> = Fail | Got(value: T, next: nat)

  predicate FieldFits(kind: Kind, f: Field) {
    match kind
    case Word(w) => f.Number? && f.value < Pow256(w)
    case Raw(n) => f.Data? && |f.bytes| == n
    case Text => f.Data? && |f.bytes| <= STRING_LIMIT
  }

  /** What the C++ types already guarantee: everything but the length of a string. */
  predicate WellTyped(kind: Kind, f: Field) {
    if kind.Text? then f.Data? else FieldFits(kind, f)
  }

  function FieldBytes(kind: Kind, f: Field): Bytes
    requires FieldFits(kind, f)
  {
    match kind
    case Word(w) => LittleEndian(f.value, w)
    case Raw(_) => f.bytes
    case Text => LittleEndian(|f.bytes|, 4) + f.bytes
  }

  function ReadField(kind: Kind, c: Bytes, o: nat): (r: Read<Field>)
    requires o <= |c|
    ensures r.Got? ==> o <= r.next <= |c|
  {
    match kind
    case Word(w) => if w <= |c| - o then Got(Number(FromLittleEndian(c[o..o + w])), o + w) else Fail
    case Raw(n) => if n <= |c| - o then Got(Data(c[o..o + n]), o + n) else Fail
    case Text =>
      if |c| - o < 4 then Fail
      else
        var size := FromLittleEndian(c[o..o + 4]);
        if size > STRING_LIMIT || size > |c| - o - 4 then Fail
        else Got(Data(c[o + 4..o + 4 + size]), o + 4 + size)
  }

  /** `e` stands in `c` from `o` to `n`. */
  predicate At(c: Bytes, o: nat, n: nat, e: Bytes) {
    o <= n <= |c| && c[o..n] == e
  }

  lemma AtJoin(c: Bytes, o: nat, n: nat, e: Bytes, f: Bytes)
    ensures At(c, o, n, e + f) <==> At(c, o, o + |e|, e) && At(c, o + |e|, n, f)
  {
    if At(c, o, n, e + f) {
      assert n == o + |e| + |f|;
      assert c[o..o + |e|] == c[o..n][..|e|] == e;
      assert c[o + |e|..n] == c[o..n][|e|..] == f;
    }
    if At(c, o, o + |e|, e) && At(c, o + |e|, n, f) {
      assert c[o..n] == c[o..o + |e|] + c[o + |e|..n];
    }
  }

  lemma LimitFits()
    ensures Pow256(4) == 0x1_0000_0000 && Pow256(8) == 0x1_0000_0000_0000_0000
  {
    assert Pow256(1) == 256 && Pow256(2) == 256 * 256 && Pow256(3) == 256 * 256 * 256;
    assert Pow256(4) == 0x1_0000_0000;
    assert Pow256(5) == 0x100_0000_0000 && Pow256(6) == 0x1_0000_0000_0000;
    assert Pow256(7) == 0x100_0000_0000_0000;
  }

  /** Reading a field succeeds with `f` exactly when the bytes of a fitting `f` stand there. */
  lemma FieldExact(kind: Kind, c: Bytes, o: nat, f: Field, n: nat)
    requires o <= |c|
    ensures ReadField(kind, c, o) == Got(f, n) <==> FieldFits(kind, f) && At(c, o, n, FieldBytes(kind, f))
  {
    match kind
    case Raw(k) =>
    case Word(w) =>
      WordExact(w, c, o, f, n);
    case Text =>
      TextExact(c, o, f, n);
  }

  lemma WordExact(w: nat, c: Bytes, o: nat, f: Field, n: nat)
    requires o <= |c|
    ensures ReadField(Word(w), c, o) == Got(f, n)
       <==> FieldFits(Word(w), f) && At(c, o, n, FieldBytes(Word(w), f))
  {
    if w <= |c| - o {
      ToOfFrom(c[o..o + w]);
    }
    if FieldFits(Word(w), f) {
      FromOfTo(f.value, w);
    }
  }

  lemma TextExact(c: Bytes, o: nat, f: Field, n: nat)
    requires o <= |c|
    ensures ReadField(Text, c, o) == Got(f, n) <==> FieldFits(Text, f) && At(c, o, n, FieldBytes(Text, f))
  {
    hide LittleEndian, FromLittleEndian, Pow256;
    LimitFits();
    if 4 <= |c| - o {
      ToOfFrom(c[o..o + 4]);
    }
    if FieldFits(Text, f) {
      var prefix := LittleEndian(|f.bytes|, 4);
      FromOfTo(|f.bytes|, 4);
      AtJoin(c, o, n, prefix, f.bytes);
    }
  }

  // ---------------------------------------------------------------- records

  type Layout = seq<Kind>
  type Record = seq<Field>

  predicate RecordFits(layout: Layout, r: Record) {
    |r| == |layout| && forall i :: 0 <= i < |r| ==> FieldFits(layout[i], r[i])
  }

  function RecordBytes(layout: Layout, r: Record): Bytes
    requires RecordFits(layout, r)
    decreases |r|
  {
    if r == [] then []
    else
      var k := |r| - 1;
      RecordBytes(layout[..k], r[..k]) + FieldBytes(layout[k], r[k])
  }

  function ReadRecord(layout: Layout, c: Bytes, o: nat): (r: Read<Record>)
    requires o <= |c|
    ensures r.Got? ==> o <= r.next <= |c| && |r.value| == |layout|
    decreases |layout|
  {
    if layout == [] then Got([], o)
    else
      var k := |layout| - 1;
      var before := ReadRecord(layout[..k], c, o);
      if before.Fail? then Fail
      else
        var f := ReadField(layout[k], c, before.next);
        if f.Fail? then Fail else Got(before.value + [f.value], f.next)
  }

  lemma RecordFitsSnoc(layout: Layout, r: Record)
    requires |r| == |layout| > 0
    ensures RecordFits(layout, r)
       <==> RecordFits(layout[..|r| - 1], r[..|r| - 1]) && FieldFits(layout[|r| - 1], r[|r| - 1])
  {
    hide FieldFits;
    var k := |r| - 1;
    if RecordFits(layout[..k], r[..k]) && FieldFits(layout[k], r[k]) {
      forall i | 0 <= i < |r|
        ensures FieldFits(layout[i], r[i])
      {
        if i < k {
          assert FieldFits(layout[..k][i], r[..k][i]);
        }
      }
    }
  }

  lemma {:induction false} RecordExact(layout: Layout, c: Bytes, o: nat, r: Record, n: nat)
    requires o <= |c|
    ensures ReadRecord(layout, c, o) == Got(r, n)
       <==> RecordFits(layout, r) && At(c, o, n, RecordBytes(layout, r))
    decreases |layout|
  {
    if layout != [] {
      RecordReads(layout, c, o);
      if RecordFits(layout, r) && At(c, o, n, RecordBytes(layout, r)) {
        RecordIsRead(layout, c, o, r, n);
      }
    }
  }

  /** What is read stands there. */
  lemma {:induction false} RecordReads(layout: Layout, c: Bytes, o: nat)
    requires o <= |c| && layout != []
    ensures var got := ReadRecord(layout, c, o);
            got.Got? ==> RecordFits(layout, got.value) && At(c, o, got.next, RecordBytes(layout, got.value))
    decreases |layout|, 0
  {
    hide FieldFits, FieldBytes, ReadField, RecordFits, At;
    var k := |layout| - 1;
    var got := ReadRecord(layout, c, o);
    if got.Got? {
      var before := ReadRecord(layout[..k], c, o);
      RecordExact(layout[..k], c, o, before.value, before.next);
      var f := ReadField(layout[k], c, before.next);
      FieldExact(layout[k], c, before.next, f.value, f.next);
      assert got.value[..k] == before.value;
      RecordFitsSnoc(layout, got.value);
      var e := RecordBytes(layout[..k], before.value);
      AtEnd(c, o, before.next, e);
      AtJoin(c, o, f.next, e, FieldBytes(layout[k], f.value));
    }
  }

  lemma AtEnd(c: Bytes, o: nat, n: nat, e: Bytes)
    requires At(c, o, n, e)
    ensures n == o + |e|
  {
  }

  /** What stands there is read. */
  lemma {:induction false} RecordIsRead(layout: Layout, c: Bytes, o: nat, r: Record, n: nat)
    requires o <= |c| && layout != []
    requires RecordFits(layout, r) && At(c, o, n, RecordBytes(layout, r))
    ensures ReadRecord(layout, c, o) == Got(r, n)
    decreases |layout|, 0
  {
    hide FieldFits, FieldBytes, ReadField;
    var k := |layout| - 1;
    var e := RecordBytes(layout[..k], r[..k]);
    AtJoin(c, o, n, e, FieldBytes(layout[k], r[k]));
    RecordExact(layout[..k], c, o, r[..k], o + |e|);
    FieldExact(layout[k], c, o + |e|, r[k], n);
    assert r == r[..k] + [r[k]];
  }

  // ---------------------------------------------------------------- lists of records

  predicate RecordsFit(layout: Layout, rs: seq<Record>) {
    forall r <- rs :: RecordFits(layout, r)
  }

  function RecordsBytes(layout: Layout, rs: seq<Record>): Bytes
    requires RecordsFit(layout, rs)
    decreases |rs|
  {
    if rs == [] then []
    else RecordsBytes(layout, rs[..|rs| - 1]) + RecordBytes(layout, rs[|rs| - 1])
  }

  function ReadRecords(layout: Layout, c: Bytes, o: nat, count: nat): (r: Read<seq<Record>>)
    requires o <= |c|
    ensures r.Got? ==> o <= r.next <= |c| && |r.value| == count
    decreases count
  {
    if count == 0 then Got([], o)
    else
      var before := ReadRecords(layout, c, o, count - 1);
      if before.Fail? then Fail
      else
        var r := ReadRecord(layout, c, before.next);
        if r.Fail? then Fail else Got(before.value + [r.value], r.next)
  }

  lemma {:induction false} RecordsExact(layout: Layout, c: Bytes, o: nat, rs: seq<Record>, count: nat, n: nat)
    requires o <= |c|
    ensures ReadRecords(layout, c, o, count) == Got(rs, n)
       <==> |rs| == count && RecordsFit(layout, rs) && At(c, o, n, RecordsBytes(layout, rs))
    decreases count
  {
    hide RecordFits, RecordBytes, ReadRecord, RecordsBytes, At;
    if count > 0 {
      RecordsRead(layout, c, o, count);
      if |rs| == count && RecordsFit(layout, rs) && At(c, o, n, RecordsBytes(layout, rs)) {
        RecordsAreRead(layout, c, o, rs, n);
      }
    } else {
      NoRecords(layout, c, o, n);
    }
  }

  lemma NoRecords(layout: Layout, c: Bytes, o: nat, n: nat)
    requires o <= |c|
    ensures RecordsFit(layout, []) && (At(c, o, n, RecordsBytes(layout, [])) <==> n == o)
  {
  }

  lemma RecordsSnoc(layout: Layout, rs: seq<Record>, r: Record)
    requires RecordsFit(layout, rs) && RecordFits(layout, r)
    ensures RecordsFit(layout, rs + [r])
    ensures RecordsBytes(layout, rs + [r]) == RecordsBytes(layout, rs) + RecordBytes(layout, r)
  {
    hide RecordFits, RecordBytes;
    assert (rs + [r])[..|rs|] == rs;
  }

  /** What is read stands there. */
  lemma {:induction false} RecordsRead(layout: Layout, c: Bytes, o: nat, count: nat)
    requires o <= |c| && count > 0
    ensures var got := ReadRecords(layout, c, o, count);
            got.Got? ==> RecordsFit(layout, got.value) && At(c, o, got.next, RecordsBytes(layout, got.value))
    decreases count, 0
  {
    hide RecordFits, RecordBytes, ReadRecord, RecordsBytes, RecordsFit, At;
    var before := ReadRecords(layout, c, o, count - 1);
    if before.Got? {
      RecordsExact(layout, c, o, before.value, count - 1, before.next);
      var r := ReadRecord(layout, c, before.next);
      if r.Got? {
        RecordExact(layout, c, before.next, r.value, r.next);
        RecordsSnoc(layout, before.value, r.value);
        AtEnd(c, o, before.next, RecordsBytes(layout, before.value));
        AtJoin(c, o, r.next, RecordsBytes(layout, before.value), RecordBytes(layout, r.value));
      }
    }
  }

  /** What stands there is read. */
  lemma {:induction false} RecordsAreRead(layout: Layout, c: Bytes, o: nat, rs: seq<Record>, n: nat)
    requires o <= |c| && rs != [] && RecordsFit(layout, rs) && At(c, o, n, RecordsBytes(layout, rs))
    ensures ReadRecords(layout, c, o, |rs|) == Got(rs, n)
    decreases |rs|, 0
  {
    hide RecordFits, RecordBytes, ReadRecord;
    var k := |rs| - 1;
    var e := RecordsBytes(layout, rs[..k]);
    AtJoin(c, o, n, e, RecordBytes(layout, rs[k]));
    RecordsExact(layout, c, o, rs[..k], k, o + |e|);
    RecordExact(layout, c, o + |e|, rs[k], n);
    assert rs == rs[..k] + [rs[k]];
  }

  /** A list that can be read whole can be read up to any point, with the same records. */
  lemma {:induction false} ReadPrefix(layout: Layout, c: Bytes, o: nat, some: nat, count: nat)
    requires o <= |c| && some <= count && ReadRecords(layout, c, o, count).Got?
    ensures ReadRecords(layout, c, o, some).Got?
    ensures ReadRecords(layout, c, o, some).value == ReadRecords(layout, c, o, count).value[..some]
    decreases count
  {
    if some < count {
      ReadPrefix(layout, c, o, some, count - 1);
    }
  }

  // ---------------------------------------------------------------- the reader and the writer

  class BinaryReader {
    const content: Bytes
    var offset: nat

    constructor (content: Bytes)
      ensures this.content == content && offset == 0 && Valid()
    {
      this.content := content;
      offset := 0;
    }

    predicate Valid()
      reads this
    {
      offset <= |content|
    }

    /** requireMagic */
    method RequireMagic(expected: Bytes) returns (ok: bool)
      requires Valid()
      modifies this
      ensures Valid() && ok == At(content, old(offset), old(offset) + |expected|, expected)
      ensures offset == old(offset) + if ok then |expected| else 0
    {
      ok := |expected| <= |content| - offset && content[offset..offset + |expected|] == expected;
      if ok {
        offset := offset + |expected|;
      }
    }

    /** readUint32 and readUint64: bytes shifted into place, lowest first. */
    method ReadWord(width: nat) returns (r: Option<nat>)
      requires Valid()
      modifies this
      ensures Valid()
      ensures match ReadField(Word(width), content, old(offset))
              case Fail => r == None && offset == old(offset)
              case Got(f, next) => r == Some(f.value) && offset == next
    {
      if width > |content| - offset {
        return None;
      }
      var value: nat := 0;
      var index := 0;
      var place: nat := 1;
      while index < width
        invariant index <= width && place == Pow256(index) && offset == old(offset)
        invariant value == FromLittleEndian(content[offset..offset + index])
      {
        FromSnoc(content[offset..offset + index], content[offset + index]);
        assert content[offset..offset + index + 1] == content[offset..offset + index] + [content[offset + index]];
        value := value + content[offset + index] * place;
        place := 256 * place;
        index := index + 1;
      }
      offset := offset + width;
      r := Some(value);
    }

    /** readBytes */
    method ReadBytes(size: nat) returns (r: Option<Bytes>)
      requires Valid()
      modifies this
      ensures Valid()
      ensures match ReadField(Raw(size), content, old(offset))
              case Fail => r == None && offset == old(offset)
              case Got(f, next) => r == Some(f.bytes) && offset == next
    {
      if size > |content| - offset {
        return None;
      }
      r := Some(content[offset..offset + size]);
      offset := offset + size;
    }

    /** readString */
    method ReadString() returns (r: Option<Bytes>)
      requires Valid()
      modifies this
      ensures Valid()
      ensures match ReadField(Text, content, old(offset))
              case Fail => r == None
              case Got(f, next) => r == Some(f.bytes) && offset == next
    {
      var size := ReadWord(4);
      if size == None || size.value > STRING_LIMIT {
        return None;
      }
      r := ReadBytes(size.value);
    }

    method ReadOne(kind: Kind) returns (r: Option<Field>)
      requires Valid()
      modifies this
      ensures Valid()
      ensures match ReadField(kind, content, old(offset))
              case Fail => r == None
              case Got(f, next) => r == Some(f) && offset == next
    {
      match kind
      case Word(w) =>
        var n := ReadWord(w);
        r := if n == None then None else Some(Number(n.value));
      case Raw(size) =>
        var b := ReadBytes(size);
        r := if b == None then None else Some(Data(b.value));
      case Text =>
        var s := ReadString();
        r := if s == None then None else Some(Data(s.value));
    }

    /** The reads of one record, in the order of its layout. */
    method ReadAll(layout: Layout) returns (r: Option<Record>)
      requires Valid()
      modifies this
      ensures Valid()
      ensures match ReadRecord(layout, content, old(offset))
              case Fail => r == None
              case Got(v, next) => r == Some(v) && offset == next
    {
      hide ReadField;
      var start := offset;
      var fields: Record := [];
      var i := 0;
      assert layout[..0] == [];
      while i < |layout|
        invariant i <= |layout| && Valid()
        invariant ReadRecord(layout[..i], content, start) == Got(fields, offset)
      {
        assert layout[..i + 1][..i] == layout[..i];
        var f := ReadOne(layout[i]);
        if f == None {
          if ReadRecord(layout, content, start).Got? {
            ShorterRead(layout, i + 1, content, start);
          }
          return None;
        }
        fields := fields + [f.value];
        i := i + 1;
      }
      assert layout[..i] == layout;
      r := Some(fields);
    }
  }

  lemma {:induction false} ShorterRead(layout: Layout, i: nat, c: Bytes, o: nat)
    requires o <= |c| && i <= |layout| && ReadRecord(layout, c, o).Got?
    ensures ReadRecord(layout[..i], c, o).Got?
    decreases |layout|
  {
    if i < |layout| {
      ShorterRead(layout[..|layout| - 1], i, c, o);
      assert layout[..|layout| - 1][..i] == layout[..i];
    } else {
      assert layout[..i] == layout;
    }
  }

  class BinaryWriter {
    var output: Bytes

    constructor ()
      ensures output == []
    {
      output := [];
    }

    /** appendUint32 and appendUint64 */
    method AppendWord(value: nat, width: nat)
      modifies this
      ensures output == old(output) + LittleEndian(value, width)
    {
      var place: nat := 1;
      for shift := 0 to width
        invariant place == Pow256(shift)
        invariant output == old(output) + LittleEndian(value, shift)
      {
        ToSnoc(value, shift);
        output := output + [value / place % 256];
        place := 256 * place;
      }
    }

    /** appendString; false is the exception about the format limit. */
    method AppendString(value: Bytes) returns (ok: bool)
      modifies this
      ensures ok == FieldFits(Text, Data(value))
      ensures output == old(output) + if ok then FieldBytes(Text, Data(value)) else []
    {
      ok := |value| <= STRING_LIMIT;
      if ok {
        AppendWord(|value|, 4);
        output := output + value;
      }
    }

    method AppendOne(kind: Kind, f: Field) returns (ok: bool)
      requires WellTyped(kind, f)
      modifies this
      ensures ok == FieldFits(kind, f)
      ensures ok ==> output == old(output) + FieldBytes(kind, f)
    {
      match kind
      case Word(w) =>
        AppendWord(f.value, w);
        ok := true;
      case Raw(_) =>
        output := output + f.bytes;
        ok := true;
      case Text =>
        ok := AppendString(f.bytes);
    }

    /** The appends of one record, in the order of its layout. */
    method AppendAll(layout: Layout, r: Record) returns (ok: bool)
      requires |r| == |layout|
      requires forall i :: 0 <= i < |r| ==> WellTyped(layout[i], r[i])
      modifies this
      ensures ok == RecordFits(layout, r)
      ensures ok ==> output == old(output) + RecordBytes(layout, r)
    {
      hide FieldBytes, FieldFits;
      var i := 0;
      while i < |layout|
        invariant i <= |layout| && RecordFits(layout[..i], r[..i])
        invariant output == old(output) + RecordBytes(layout[..i], r[..i])
      {
        assert layout[..i + 1][..i] == layout[..i] && r[..i + 1][..i] == r[..i];
        var done := AppendOne(layout[i], r[i]);
        if !done {
          return false;
        }
        i := i + 1;
      }
      assert layout[..i] == layout && r[..i] == r;
      ok := true;
    }
  }
}
