// The listing cursor: sixteen big-endian bytes in unpadded base64url (section 5 of RFC 4648).

module ArchiveCursor {
  import opened ArchiveListing
  import opened Common
  import opened Ranking

  // ---------------------------------------------------------------- big-endian numbers

  function BigEndian(n: nat, k: nat): (s: Bytes)
    ensures |s| == k
  {
    if k == 0 then [] else BigEndian(n / 256, k - 1) + [n % 256]
  }

  function Value(s: Bytes): nat {
    if s == [] then 0 else Value(s[..|s| - 1]) * 256 + s[|s| - 1]
  }

  lemma {:induction false} BigEndianRoundTrip(n: nat, k: nat)
    requires n < Pow256(k)
    ensures Value(BigEndian(n, k)) == n
  {
    if k > 0 {
      BigEndianRoundTrip(n / 256, k - 1);
      assert BigEndian(n, k)[..k - 1] == BigEndian(n / 256, k - 1);
    }
  }

  lemma {:induction false} ValueRoundTrip(s: Bytes)
    ensures Value(s) < Pow256(|s|) && BigEndian(Value(s), |s|) == s
  {
    if s != [] {
      var init, last := s[..|s| - 1], s[|s| - 1];
      ValueRoundTrip(init);
      assert Value(s) / 256 == Value(init) && Value(s) % 256 == last;
    }
  }

  /** n >> (8 * k) */
  function ShiftRight(n: nat, k: nat): nat {
    if k == 0 then n else ShiftRight(n / 256, k - 1)
  }

  /** Byte `i` of the big-endian form is the number shifted right and truncated. */
  lemma {:induction false} BigEndianAt(n: nat, k: nat, i: nat)
    requires i < k
    ensures BigEndian(n, k)[i] == ShiftRight(n, k - 1 - i) % 256
  {
    if i < k - 1 {
      BigEndianAt(n / 256, k - 1, i);
    }
  }

  // ---------------------------------------------------------------- base64 blocks (EVP_EncodeBlock, EVP_DecodeBlock)

  type Sextet = v: nat | v < 64

  /** Three bytes as four six-bit values. */
  function Split3(a: Byte, b: Byte, c: Byte): seq<Sextet> {
    [a / 4, a % 4 * 16 + b / 16, b % 16 * 4 + c / 64, c % 64]
  }

  function Join4(p: Sextet, q: Sextet, r: Sextet, s: Sextet): Bytes {
    [p * 4 + q / 16, q % 16 * 16 + r / 4, r % 4 * 64 + s]
  }

  /** They are the same twenty-four bits. */
  lemma SameBits(a: Byte, b: Byte, c: Byte)
    ensures var v := Split3(a, b, c);
            && |v| == 4
            && v[0] as int * 0x4_0000 + v[1] as int * 0x1000 + v[2] as int * 0x40 + v[3] as int
               == a as int * 0x1_0000 + b as int * 0x100 + c as int
  {
  }

  lemma SplitJoin(a: Byte, b: Byte, c: Byte)
    ensures var v := Split3(a, b, c); Join4(v[0], v[1], v[2], v[3]) == [a, b, c]
  {
  }

  lemma JoinSplit(p: Sextet, q: Sextet, r: Sextet, s: Sextet)
    ensures var v := Join4(p, q, r, s); Split3(v[0], v[1], v[2]) == [p, q, r, s]
  {
    var v := Join4(p, q, r, s);
    assert v[0] / 4 == p && v[0] % 4 == q / 16;
    assert v[1] / 16 == q % 16 && v[1] % 16 == r / 4;
    assert v[2] / 64 == r % 4 && v[2] % 64 == s;
  }

  /** The six-bit values of whole groups; sixteen bytes are five groups and one byte. */
  function Sextets(s: Bytes): (v: seq<Sextet>)
    requires |s| % 3 == 0
    ensures |v| == |s| / 3 * 4
  {
    if s == [] then [] else Split3(s[0], s[1], s[2]) + Sextets(s[3..])
  }

  function Unsextets(v: seq<Sextet>): (s: Bytes)
    requires |v| % 4 == 0
    ensures |s| == |v| / 4 * 3
  {
    if v == [] then [] else Join4(v[0], v[1], v[2], v[3]) + Unsextets(v[4..])
  }

  lemma FirstGroup(v: seq<Sextet>, w: seq<Sextet>)
    requires |v| % 4 == 0 && |w| % 4 == 0 && v != []
    ensures |v + w| % 4 == 0 && Unsextets(v + w) == Join4(v[0], v[1], v[2], v[3]) + Unsextets(v[4..] + w)
  {
    hide Join4, Unsextets;
    ModSum(|v|, |w|);
    var x := v + w;
    GroupByGroup(x);
    assert x[0] == v[0] && x[1] == v[1] && x[2] == v[2] && x[3] == v[3];
    assert x[4..] == v[4..] + w;
  }

  lemma ModSum(a: nat, b: nat)
    requires a % 4 == 0 && b % 4 == 0
    ensures (a + b) % 4 == 0
  {
  }

  lemma GroupByGroup(v: seq<Sextet>)
    requires |v| % 4 == 0 && v != []
    ensures Unsextets(v) == Join4(v[0], v[1], v[2], v[3]) + Unsextets(v[4..])
  {
  }

  lemma {:induction false} SextetsRoundTrip(s: Bytes)
    requires |s| % 3 == 0
    ensures Unsextets(Sextets(s)) == s
  {
    if s != [] {
      SplitJoin(s[0], s[1], s[2]);
      SextetsRoundTrip(s[3..]);
      assert Sextets(s)[4..] == Sextets(s[3..]);
      assert s == [s[0], s[1], s[2]] + s[3..];
    }
  }

  lemma {:induction false} UnsextetsRoundTrip(v: seq<Sextet>)
    requires |v| % 4 == 0
    ensures Sextets(Unsextets(v)) == v
  {
    if v != [] {
      JoinSplit(v[0], v[1], v[2], v[3]);
      UnsextetsRoundTrip(v[4..]);
      assert Unsextets(v)[3..] == Unsextets(v[4..]);
      assert v == [v[0], v[1], v[2], v[3]] + v[4..];
    }
  }

  lemma {:induction false} UnsextetsAppend(v: seq<Sextet>, w: seq<Sextet>)
    requires |v| % 4 == 0 && |w| % 4 == 0
    ensures |v + w| % 4 == 0 && Unsextets(v + w) == Unsextets(v) + Unsextets(w)
  {
    if v == [] {
      assert v + w == w;
    } else {
      hide Join4;
      UnsextetsAppend(v[4..], w);
      FirstGroup(v, w);
    }
  }

  // ---------------------------------------------------------------- characters

  /** The standard table, as EVP_EncodeBlock writes it. */
  function StandardChar(v: Sextet): char {
    if v == 62 then '+' else if v == 63 then '/' else UrlChar(v)
  }

  /** The URL-safe table. */
  function UrlChar(v: Sextet): char {
    if v < 26 then ('A' as int + v) as char
    else if v < 52 then ('a' as int + (v - 26)) as char
    else if v < 62 then ('0' as int + (v - 52)) as char
    else if v == 62 then '-'
    else '_'
  }

  function UrlValue(c: char): Option<Sextet> {
    if 'A' <= c <= 'Z' then Some(c as nat - 'A' as nat)
    else if 'a' <= c <= 'z' then Some(26 + (c as nat - 'a' as nat))
    else if '0' <= c <= '9' then Some(52 + (c as nat - '0' as nat))
    else if c == '-' then Some(62)
    else if c == '_' then Some(63)
    else None
  }

  /** The alphabet of section 5 of RFC 4648: capitals, small letters and digits in order, hyphen and underscore. */
  lemma UrlAlphabet(v: nat)
    ensures UrlChar(0) == 'A' && UrlChar(26) == 'a' && UrlChar(52) == '0' && UrlChar(62) == '-' && UrlChar(63) == '_'
    ensures v < 61 && v != 25 && v != 51 ==> UrlChar(v + 1) as int == UrlChar(v) as int + 1
  {
  }

  lemma CharRoundTrip(v: Sextet)
    ensures UrlValue(UrlChar(v)) == Some(v)
    ensures StandardChar(v) != '=' && UrlChar(v) != '='
    ensures UrlChar(v) == if StandardChar(v) == '+' then '-' else if StandardChar(v) == '/' then '_'
            else StandardChar(v)
  {
  }

  lemma ValueRoundTripChar(c: char)
    requires UrlValue(c).Some?
    ensures UrlChar(UrlValue(c).value) == c
  {
  }

  function UrlText(v: seq<Sextet>): (s: string)
    ensures |s| == |v|
  {
    seq(|v|, i requires 0 <= i < |v| => UrlChar(v[i]))
  }

  /** EVP_EncodeBlock: standard characters, two padding signs after a group of one byte. */
  function EncodeBlock16(b: Bytes): (s: string)
    requires |b| == 16
    ensures |s| == 24
  {
    var v := Sextets16(b);
    seq(22, i requires 0 <= i < 22 => StandardChar(v[i])) + "=="
  }

  function Sextets16(b: Bytes): (v: seq<Sextet>)
    requires |b| == 16
    ensures |v| == 22
  {
    Sextets(b[..15]) + [b[15] / 4, b[15] % 4 * 16]
  }

  // ---------------------------------------------------------------- the cursor

  const TIME_LIMIT: nat := 0x8000_0000_0000_0000
  const ID_LIMIT: nat := 0x1_0000_0000_0000_0000

  function CursorBytes(c: Cursor): (b: Bytes)
    ensures |b| == 16
  {
    BigEndian(c.archivedAt, 8) + BigEndian(c.id, 8)
  }

  function CursorText(c: Cursor): (s: string)
    ensures |s| == 22
  {
    UrlText(Sextets16(CursorBytes(c)))
  }

  /** The loop over the bytes of time and id. */
  method FillBytes(c: Cursor) returns (bytes: array<Byte>)
    ensures bytes[..] == CursorBytes(c)
  {
    hide BigEndian, ShiftRight;
    bytes := new Byte[16](_ => 0);
    var index := 0;
    while index < 8
      invariant index <= 8
      invariant forall i :: 0 <= i < index ==> bytes[i] == BigEndian(c.archivedAt, 8)[i]
      invariant forall i :: 0 <= i < index ==> bytes[i + 8] == BigEndian(c.id, 8)[i]
    {
      BigEndianAt(c.archivedAt, 8, index);
      BigEndianAt(c.id, 8, index);
      bytes[index] := ShiftRight(c.archivedAt, 7 - index) % 256;
      bytes[index + 8] := ShiftRight(c.id, 7 - index) % 256;
      index := index + 1;
    }
  }

  /** encodeArchiveCursor */
  method EncodeCursor(c: Cursor) returns (value: string)
    ensures value == CursorText(c)
  {
    hide CursorBytes, Sextets16, UrlChar, StandardChar, UrlValue;
    var bytes := FillBytes(c);
    value := EncodeBlock16(bytes[..]);
    ghost var v := Sextets16(CursorBytes(c));
    forall i: nat | i < 22
      ensures UrlChar(v[i]) == if value[i] == '+' then '-' else if value[i] == '/' then '_' else value[i]
      ensures UrlChar(v[i]) != '='
    {
      CharRoundTrip(v[i]);
    }
    value := ReplaceAll(value, '+', '-');
    value := ReplaceAll(value, '/', '_');
    assert forall i: nat :: i < 22 ==> value[i] == UrlChar(v[i]);
    assert value[22] == value[23] == '=';
    while |value| > 0 && value[|value| - 1] == '='
      invariant 22 <= |value| <= 24 && value[..22] == CursorText(c)
      invariant forall i :: 22 <= i < |value| ==> value[i] == '='
    {
      value := value[..|value| - 1];
    }
    assert value == value[..22];
  }

  /** std::replace on a string. */
  method ReplaceAll(s: string, from: char, to: char) returns (out: string)
    ensures |out| == |s|
    ensures forall i :: 0 <= i < |s| ==> out[i] == if s[i] == from then to else s[i]
  {
    out := s;
    var i := 0;
    while i < |s|
      invariant i <= |s| == |out|
      invariant forall j :: 0 <= j < i ==> out[j] == if s[j] == from then to else s[j]
      invariant forall j :: i <= j < |s| ==> out[j] == s[j]
    {
      if out[i] == from {
        out := out[i := to];
      }
      i := i + 1;
    }
  }

  /** All characters belong to the URL-safe table. */
  predicate InTable(s: string) {
    forall i :: 0 <= i < |s| ==> UrlValue(s[i]).Some?
  }

  function ValuesOf(s: string): (v: seq<Sextet>)
    requires InTable(s)
    ensures |v| == |s|
  {
    seq(|s|, i requires 0 <= i < |s| => UrlValue(s[i]).value)
  }

  /** The cursor a text stands for, if any. */
  function CursorFrom(s: string): Option<Cursor> {
    if |s| != 22 || !InTable(s) then None
    else
      var b := Unsextets(ValuesOf(s) + [0, 0]);
      var t, id := Value(b[..8]), Value(b[8..16]);
      if t >= TIME_LIMIT || t == 0 || id == 0 then None else Some(Cursor(t, id))
  }

  lemma CursorMeans(value: string)
    ensures CursorFrom(value).Some? ==> |value| == 22 && forall i :: 0 <= i < 22 ==>
              || 'A' <= value[i] <= 'Z' || 'a' <= value[i] <= 'z' || '0' <= value[i] <= '9'
              || value[i] == '-' || value[i] == '_'
    ensures CursorFrom(value).Some? ==>
              0 < CursorFrom(value).value.archivedAt < TIME_LIMIT && 0 < CursorFrom(value).value.id < ID_LIMIT
  {
    hide Unsextets, Value, Pow256;
    if CursorFrom(value).Some? {
      ValueRoundTrip(Unsextets(ValuesOf(value) + [0, 0])[8..16]);
      Pow256Of8();
    }
  }

  /** decodeArchiveCursor; the two padding signs decode as zeros. */
  method DecodeCursor(value: string) returns (cursor: Option<Cursor>)
    ensures cursor == CursorFrom(value)
    ensures cursor.Some? ==> |value| == 22 && forall i :: 0 <= i < 22 ==>
              || 'A' <= value[i] <= 'Z' || 'a' <= value[i] <= 'z' || '0' <= value[i] <= '9'
              || value[i] == '-' || value[i] == '_'
    ensures cursor.Some? ==> 0 < cursor.value.archivedAt < TIME_LIMIT && 0 < cursor.value.id < ID_LIMIT
  {
    CursorMeans(value);
    if |value| != 22 {
      return None;
    }
    var index := 0;
    while index < |value|
      invariant index <= |value|
      invariant forall i :: 0 <= i < index ==> UrlValue(value[i]).Some?
    {
      if UrlValue(value[index]).None? {
        return None;
      }
      index := index + 1;
    }
    var decoded := Unsextets(ValuesOf(value) + [0, 0]);
    var timestamp: nat, id: nat := 0, 0;
    index := 0;
    while index < 8
      invariant index <= 8
      invariant timestamp == Value(decoded[..index]) && id == Value(decoded[8..8 + index])
    {
      assert decoded[..index + 1][..index] == decoded[..index];
      assert decoded[8..8 + index + 1][..index] == decoded[8..8 + index];
      timestamp := timestamp * 256 + decoded[index];
      id := id * 256 + decoded[index + 8];
      index := index + 1;
    }
    if timestamp >= TIME_LIMIT || timestamp == 0 || id == 0 {
      return None;
    }
    return Some(Cursor(timestamp, id));
  }

  // ---------------------------------------------------------------- round trips

  lemma Pow256Of8()
    ensures Pow256(8) == ID_LIMIT
  {
    assert Pow256(2) == 0x1_0000;
    assert Pow256(4) == 0x1_0000_0000;
    assert Pow256(6) == 0x1_0000_0000_0000;
  }

  lemma TextValues(v: seq<Sextet>)
    ensures InTable(UrlText(v)) && ValuesOf(UrlText(v)) == v
  {
    forall i | 0 <= i < |v|
      ensures UrlValue(UrlText(v)[i]) == Some(v[i])
    {
      CharRoundTrip(v[i]);
    }
  }

  /** The last group: one byte, filled up with zeros. */
  function LastGroup(b: Byte): (v: seq<Sextet>)
    ensures |v| == 4
  {
    [b / 4, b % 4 * 16, 0, 0]
  }

  lemma LastBack(b: Byte)
    ensures Unsextets(LastGroup(b)) == [b, 0, 0]
  {
    var v := LastGroup(b);
    assert v[4..] == [];
    assert Unsextets(v) == Join4(v[0], v[1], v[2], v[3]) + Unsextets(v[4..]);
  }

  lemma Unsextets16(b: Bytes)
    requires |b| == 16
    ensures Unsextets(Sextets16(b) + [0, 0]) == b + [0, 0]
  {
    hide Sextets, Unsextets;
    var last := LastGroup(b[15]);
    assert Sextets16(b) + [0, 0] == Sextets(b[..15]) + last;
    UnsextetsAppend(Sextets(b[..15]), last);
    SextetsRoundTrip(b[..15]);
    LastBack(b[15]);
    assert b[..15] + [b[15], 0, 0] == b + [0, 0];
  }

  /** The client's cursor comes back as it was, for every positive time and id the columns can hold. */
  lemma CursorRoundTrip(c: Cursor)
    requires 0 < c.archivedAt < TIME_LIMIT && 0 < c.id < ID_LIMIT
    ensures CursorFrom(CursorText(c)) == Some(c)
  {
    Pow256Of8();
    TextValues(Sextets16(CursorBytes(c)));
    Unsextets16(CursorBytes(c));
    var b := CursorBytes(c) + [0, 0];
    assert b[..8] == BigEndian(c.archivedAt, 8);
    assert b[8..16] == BigEndian(c.id, 8);
    BigEndianRoundTrip(c.archivedAt, 8);
    BigEndianRoundTrip(c.id, 8);
  }

  /** The first sixteen bytes behind an accepted text, and what their own text is. */
  lemma Resextets(v: seq<Sextet>)
    requires |v| == 22
    ensures var b := Unsextets(v + [0, 0]);
            |b| == 18 && Sextets16(b[..16]) == v[..21] + [v[21] / 16 * 16]
  {
    var last: seq<Sextet> := [v[20], v[21], 0, 0];
    assert v + [0, 0] == v[..20] + last;
    UnsextetsAppend(v[..20], last);
    UnsextetsRoundTrip(v[..20]);
    assert last[4..] == [];
    assert Unsextets(last) == Join4(v[20], v[21], 0, 0);
    var b := Unsextets(v + [0, 0]);
    assert b[..16][..15] == Unsextets(v[..20]);
    assert b[15] as int == v[20] as int * 4 + v[21] as int / 16;
  }

  /** Decoding forgives: the low four bits of the last character are never looked at. An accepted text
      is the text of its cursor exactly when those bits are zero. */
  lemma CanonicalIff(s: string)
    requires CursorFrom(s).Some?
    ensures |s| == 22 && InTable(s)
    ensures CursorText(CursorFrom(s).value) == s <==> ValuesOf(s)[21] % 16 == 0
  {
    hide Sextets16, UrlText, UrlChar, ValuesOf;
    CursorIs(s);
    var v := ValuesOf(s);
    var w := v[..21] + [v[21] / 16 * 16];
    SameText(s, v, w);
  }

  /** The cursor of an accepted text, by the text that encodes it. */
  lemma CursorIs(s: string)
    requires CursorFrom(s).Some?
    ensures |s| == 22 && InTable(s) && |ValuesOf(s)| == 22
    ensures CursorText(CursorFrom(s).value) == UrlText(ValuesOf(s)[..21] + [ValuesOf(s)[21] / 16 * 16])
  {
    hide Sextets16, UrlText, ValuesOf, Unsextets;
    var v := ValuesOf(s);
    var b := Unsextets(v + [0, 0]);
    Resextets(v);
    ValueRoundTrip(b[..8]);
    ValueRoundTrip(b[8..16]);
    assert CursorBytes(CursorFrom(s).value) == b[..16];
  }

  /** Zeroing the low four bits of the last value gives the same text back exactly when they were zero. */
  lemma SameText(s: string, v: seq<Sextet>, w: seq<Sextet>)
    requires |s| == 22 && InTable(s) && v == ValuesOf(s) && |v| == 22 && w == v[..21] + [v[21] / 16 * 16]
    ensures UrlText(w) == s <==> v[21] % 16 == 0
  {
    TextValues(w);
    if v[21] % 16 == 0 {
      assert w == v;
      forall i | 0 <= i < 22
        ensures UrlText(w)[i] == s[i]
      {
        ValueRoundTripChar(s[i]);
      }
    } else {
      assert ValuesOf(UrlText(w))[21] != v[21];
    }
  }

  /** Changing those bits gives fifteen more texts that every cursor is decoded from. */
  lemma SixteenTexts(c: Cursor, k: nat)
    requires 0 < c.archivedAt < TIME_LIMIT && 0 < c.id < ID_LIMIT && k < 16
    ensures InTable(CursorText(c))
    ensures var last := ValuesOf(CursorText(c))[21];
            && last % 16 == 0 && last < 49
            && CursorFrom(CursorText(c)[..21] + [UrlChar(last + k)]) == Some(c)
            && (k > 0 ==> CursorText(c)[..21] + [UrlChar(last + k)] != CursorText(c))
  {
    hide Sextets, Unsextets, CursorBytes;
    var v := Sextets16(CursorBytes(c));
    TextValues(v);
    var w := v[..21] + [v[21] + k];
    var s := CursorText(c)[..21] + [UrlChar(v[21] + k)];
    assert s == UrlText(w);
    TextValues(w);
    assert v[21] == CursorBytes(c)[15] % 4 * 16;
    SameBytes(CursorBytes(c), w, k);
    assert UrlValue(s[21]) == Some(v[21] + k) && UrlValue(CursorText(c)[21]) == Some(v[21]);
    CursorRoundTrip(c);
    var a, b := Unsextets(w + [0, 0]), Unsextets(v + [0, 0]);
    assert a[..16][..8] == a[..8] && a[..16][8..] == a[8..16];
    assert b[..16][..8] == b[..8] && b[..16][8..] == b[8..16];
  }

  /** The low four bits of the last value do not reach the sixteen bytes. */
  lemma SameBytes(b: Bytes, w: seq<Sextet>, k: nat)
    requires |b| == 16 && k < 16 && Sextets16(b)[21] < 49
    requires w == Sextets16(b)[..21] + [Sextets16(b)[21] + k]
    ensures var a := Unsextets(w + [0, 0]); |a| == 18 && a[..16] == b
    ensures Unsextets(Sextets16(b) + [0, 0])[..16] == b
  {
    hide Sextets, Unsextets;
    var a := Unsextets(w + [0, 0]);
    Resextets(w);
    assert Sextets16(a[..16]) == Sextets16(b);
    Unsextets16(a[..16]);
    Unsextets16(b);
    assert a[..16] + [0, 0] == b + [0, 0];
    assert (a[..16] + [0, 0])[..16] == a[..16] && (b + [0, 0])[..16] == b;
  }

  // ---------------------------------------------------------------- following next_cursor

  /** The rows have times and ids that their columns can hold. */
  ghost predicate CursorsFit(table: set<Record>) {
    forall r <- table :: 0 < r.archivedAt < TIME_LIMIT && 0 < r.id < ID_LIMIT
  }

  lemma PageInTable(table: set<Record>, q: Query, c: Option<Cursor>, pageSize: nat)
    requires UniqueIds(table)
    ensures forall r <- PageAfter(table, q, c, pageSize).items :: r in table
  {
    hide Sorted;
    var all := Ordered(table, q, c);
    forall r <- PageAfter(table, q, c, pageSize).items
      ensures r in table
    {
      assert r in all;
      assert r in Selected(table, q, c);
    }
  }

  /** A page with more behind it has a last row, whose cursor comes back as text and leaves less to list. */
  lemma PageStep(table: set<Record>, q: Query, c: Option<Cursor>, pageSize: nat)
    requires UniqueIds(table) && CursorsFit(table) && pageSize > 0 && PageAfter(table, q, c, pageSize).hasMore
    ensures PageAfter(table, q, c, pageSize).items != []
    ensures var items := PageAfter(table, q, c, pageSize).items;
            var next := CursorOf(items[|items| - 1]);
            && |Selected(table, q, Some(next))| < |Selected(table, q, c)|
            && CursorFrom(CursorText(next)) == Some(next)
  {
    hide Selected, CursorFrom, CursorText;
    NextPage(table, q, c, pageSize);
    PageInTable(table, q, c, pageSize);
    var items := PageAfter(table, q, c, pageSize).items;
    CursorRoundTrip(CursorOf(items[|items| - 1]));
  }

  /** The rows a client sees that sends back the text of next_cursor until there is none; no text stands for
      the first request. A text that does not decode ends the listing with an error. */
  ghost function FollowedTexts(table: set<Record>, q: Query, text: Option<string>, pageSize: nat): seq<Record>
    requires UniqueIds(table) && CursorsFit(table) && pageSize > 0
    decreases if text == None then 1 else 0,
              if text == None then 0 else |Selected(table, q, CursorFrom(text.value))|
  {
    var c := if text == None then None else CursorFrom(text.value);
    if text.Some? && c == None then []
    else
      var page := PageAfter(table, q, c, pageSize);
      if page.hasMore then
        PageStep(table, q, c, pageSize);
        var last := page.items[|page.items| - 1];
        page.items + FollowedTexts(table, q, Some(CursorText(CursorOf(last))), pageSize)
      else page.items
  }

  lemma {:induction false} TextsFollowCursors(table: set<Record>, q: Query, c: Option<Cursor>, text: Option<string>,
                                              pageSize: nat)
    requires UniqueIds(table) && CursorsFit(table) && pageSize > 0
    requires text == None ==> c == None
    requires text.Some? ==> c.Some? && CursorFrom(text.value) == c
    ensures FollowedTexts(table, q, text, pageSize) == Followed(table, q, c, pageSize)
    decreases |Selected(table, q, c)|
  {
    hide CursorFrom, CursorText, PageAfter, Selected, CursorOf, CursorsFit;
    var page := PageAfter(table, q, c, pageSize);
    if page.hasMore {
      PageStep(table, q, c, pageSize);
      var last := page.items[|page.items| - 1];
      TextsFollowCursors(table, q, Some(CursorOf(last)), Some(CursorText(CursorOf(last))), pageSize);
    }
  }

  /** Sending next_cursor back as text shows every matching record exactly once, newest first, and ends. */
  lemma FollowingTextsListsEverythingOnce(table: set<Record>, q: Query, pageSize: nat)
    requires UniqueIds(table) && CursorsFit(table) && pageSize > 0
    ensures var seen := FollowedTexts(table, q, None, pageSize);
            && (forall r :: r in seen <==> r in table && Matches(r, q))
            && (forall i, j :: 0 <= i < j < |seen| ==> Before(seen[i], seen[j]))
            && |seen| == |set r | r in table && Matches(r, q)|
  {
    TextsFollowCursors(table, q, None, None, pageSize);
    FollowingListsEverythingOnce(table, q, pageSize);
  }
}
