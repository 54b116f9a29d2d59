// validUtf8: accepts exactly the encodings of sequences of Unicode scalar values (RFC 3629, section 4).

module Utf8 {
  import opened Common

  predicate IsScalar(c: nat) {
    c <= 0x10FFFF && !(0xD800 <= c <= 0xDFFF)
  }

  /** The encoding of one scalar value (RFC 3629, section 3). */
  function Encode(c: nat): (e: Bytes)
    requires IsScalar(c)
    ensures 1 <= |e| <= 4
  {
    if c < 0x80 then [c]
    else if c < 0x800 then [0xC0 + c / 64, 0x80 + c % 64]
    else if c < 0x10000 then [0xE0 + c / 4096, 0x80 + c / 64 % 64, 0x80 + c % 64]
    else [0xF0 + c / 262144, 0x80 + c / 4096 % 64, 0x80 + c / 64 % 64, 0x80 + c % 64]
  }

  predicate AllScalar(cs: seq<nat>) {
    forall c <- cs :: IsScalar(c)
  }

  function EncodeAll(cs: seq<nat>): Bytes
    requires AllScalar(cs)
  {
    if cs == [] then [] else Encode(cs[0]) + EncodeAll(cs[1..])
  }

  /** The bytes encode some sequence of scalar values. */
  ghost predicate IsUtf8(v: Bytes) {
    exists cs: seq<nat> :: AllScalar(cs) && EncodeAll(cs) == v
  }

  // ---------------------------------------------------------------- one encoding

  /** How long the first byte says the encoding is; 0 is an invalid first byte. */
  function LengthOf(first: Byte): nat {
    if first <= 0x7F then 1
    else if 0xC2 <= first <= 0xDF then 2
    else if 0xE0 <= first <= 0xEF then 3
    else if 0xF0 <= first <= 0xF4 then 4
    else 0
  }

  /** The bits the first byte contributes: the masks 0x1F, 0x0F and 0x07. */
  function LeadBits(first: Byte, length: nat): nat {
    if length == 2 then first % 32 else if length == 3 then first % 16 else first % 8
  }

  /** (codepoint << 6) | (next & 0x3F) */
  function Join(codepoint: nat, next: Byte): nat {
    codepoint * 64 + (next as int) % 64
  }

  /** (next & 0xC0) == 0x80 */
  predicate IsContinuation(b: Byte) {
    0x80 <= b < 0xC0
  }

  /** The code point collected from the first n bytes of an encoding. */
  function Collected(e: Bytes, length: nat, n: nat): nat
    requires 1 <= n <= |e|
  {
    if n == 1 then LeadBits(e[0], length) else Join(Collected(e, length, n - 1), e[n - 1])
  }

  /** Over-long forms, surrogates and values beyond Unicode. */
  predicate Rejected(c: nat, length: nat) {
    (length == 3 && c < 0x800) || (length == 4 && c < 0x10000) || 0xD800 <= c <= 0xDFFF || c > 0x10FFFF
  }

  ghost predicate WellFormed(e: Bytes) {
    && e != [] && LengthOf(e[0]) == |e|
    && (forall i :: 1 <= i < |e| ==> IsContinuation(e[i]))
    && (|e| > 1 ==> !Rejected(Collected(e, |e|, |e|), |e|))
  }

  lemma Collect2(e: Bytes)
    requires |e| == 2
    ensures Collected(e, 2, 2) == Join(LeadBits(e[0], 2), e[1])
  {
    assert Collected(e, 2, 1) == LeadBits(e[0], 2);
  }

  lemma Collect3(e: Bytes)
    requires |e| == 3
    ensures Collected(e, 3, 3) == Join(Join(LeadBits(e[0], 3), e[1]), e[2])
  {
    assert Collected(e, 3, 2) == Join(Collected(e, 3, 1), e[1]);
  }

  lemma Collect4(e: Bytes)
    requires |e| == 4
    ensures Collected(e, 4, 4) == Join(Join(Join(LeadBits(e[0], 4), e[1]), e[2]), e[3])
  {
    assert Collected(e, 4, 2) == Join(Collected(e, 4, 1), e[1]);
    assert Collected(e, 4, 3) == Join(Collected(e, 4, 2), e[2]);
  }

  /** The base-64 digits of a code point. */
  lemma Digits(c: nat)
    ensures c / 4096 == c / 64 / 64 && c / 262144 == c / 4096 / 64
    ensures c == c / 64 * 64 + c % 64
    ensures c / 64 == c / 4096 * 64 + c / 64 % 64
    ensures c / 4096 == c / 262144 * 64 + c / 4096 % 64
  {
  }

  lemma JoinBack(x: nat, b: Byte)
    requires IsContinuation(b)
    ensures Join(x, b) / 64 == x && 0x80 + Join(x, b) % 64 == b
  {
  }

  lemma JoinDigit(x: nat, c: nat)
    ensures Join(x, 0x80 + c % 64) == x * 64 + c % 64
  {
  }

  lemma Encoded2(c: nat)
    requires 0x80 <= c < 0x800
    ensures Collected(Encode(c), 2, 2) == c
  {
    hide Collected, Join;
    Digits(c);
    Collect2(Encode(c));
    assert LeadBits(Encode(c)[0], 2) == c / 64;
    JoinDigit(c / 64, c);
  }

  lemma Encoded3(c: nat)
    requires 0x800 <= c < 0x10000 && IsScalar(c)
    ensures Collected(Encode(c), 3, 3) == c
  {
    hide Collected, Join;
    Digits(c);
    Collect3(Encode(c));
    assert LeadBits(Encode(c)[0], 3) == c / 4096;
    JoinDigit(c / 4096, c / 64);
    JoinDigit(c / 64, c);
  }

  lemma Encoded4(c: nat)
    requires 0x10000 <= c && IsScalar(c)
    ensures Collected(Encode(c), 4, 4) == c
  {
    hide Collected, Join;
    Digits(c);
    Collect4(Encode(c));
    assert LeadBits(Encode(c)[0], 4) == c / 262144;
    JoinDigit(c / 262144, c / 4096);
    JoinDigit(c / 4096, c / 64);
    JoinDigit(c / 64, c);
  }

  /** An encoding passes the checks. */
  lemma EncodingIsWellFormed(c: nat)
    requires IsScalar(c)
    ensures WellFormed(Encode(c))
  {
    hide Collected;
    if c < 0x80 {
    } else if c < 0x800 {
      Encoded2(c);
    } else if c < 0x10000 {
      Encoded3(c);
    } else {
      Encoded4(c);
    }
  }

  /** What passes the checks is an encoding. */
  lemma WellFormedIsEncoding(e: Bytes)
    requires WellFormed(e)
    ensures exists c: nat :: IsScalar(c) && Encode(c) == e
  {
    if |e| == 1 {
      assert Encode(e[0]) == e;
    } else if |e| == 2 {
      Encoding2(e);
    } else if |e| == 3 {
      Encoding3(e);
    } else {
      Encoding4(e);
    }
  }

  lemma Encoding2(e: Bytes)
    requires WellFormed(e) && |e| == 2
    ensures exists c: nat :: IsScalar(c) && Encode(c) == e
  {
    hide Collected, Join;
    Collect2(e);
    var c := Join(LeadBits(e[0], 2), e[1]);
    JoinBack(LeadBits(e[0], 2), e[1]);
    Digits(c);
    assert 0x80 <= c < 0x800;
    assert IsScalar(c) && Encode(c) == e;
  }

  lemma Encoding3(e: Bytes)
    requires WellFormed(e) && |e| == 3
    ensures exists c: nat :: IsScalar(c) && Encode(c) == e
  {
    hide Collected, Join;
    Collect3(e);
    var high := Join(LeadBits(e[0], 3), e[1]);
    var c := Join(high, e[2]);
    JoinBack(LeadBits(e[0], 3), e[1]);
    JoinBack(high, e[2]);
    Digits(c);
    assert IsScalar(c) && Encode(c) == e;
  }

  lemma Encoding4(e: Bytes)
    requires WellFormed(e) && |e| == 4
    ensures exists c: nat :: IsScalar(c) && Encode(c) == e
  {
    hide Collected, Join;
    Collect4(e);
    var top := Join(LeadBits(e[0], 4), e[1]);
    var high := Join(top, e[2]);
    var c := Join(high, e[3]);
    JoinBack(LeadBits(e[0], 4), e[1]);
    JoinBack(top, e[2]);
    JoinBack(high, e[3]);
    Digits(c);
    assert IsScalar(c) && Encode(c) == e;
  }

  // ---------------------------------------------------------------- sequences

  /** Text after a well-formed encoding is judged by itself. */
  lemma HeadThenRest(v: Bytes, n: nat)
    requires 0 < n <= |v| && WellFormed(v[..n])
    ensures IsUtf8(v) <==> IsUtf8(v[n..])
  {
    hide WellFormed;
    WellFormedIsEncoding(v[..n]);
    var c: nat :| IsScalar(c) && Encode(c) == v[..n];
    if IsUtf8(v[n..]) {
      var cs: seq<nat> :| AllScalar(cs) && EncodeAll(cs) == v[n..];
      assert ([c] + cs)[1..] == cs;
      assert AllScalar([c] + cs) && EncodeAll([c] + cs) == v[..n] + v[n..] == v;
    }
    if IsUtf8(v) {
      var cs: seq<nat> :| AllScalar(cs) && EncodeAll(cs) == v;
      assert IsScalar(cs[0]);
      var e := Encode(cs[0]);
      assert v == e + EncodeAll(cs[1..]);
      EncodingIsWellFormed(cs[0]);
      SameLength(v, n, |e|);
      assert v[n..] == EncodeAll(cs[1..]);
    }
  }

  lemma SameLength(v: Bytes, n: nat, m: nat)
    requires 0 < n <= |v| && 0 < m <= |v| && WellFormed(v[..n]) && WellFormed(v[..m])
    ensures n == m
  {
  }

  /** Without a well-formed encoding at its start a text is not UTF-8. */
  lemma NoHead(v: Bytes)
    requires v != [] && forall n: nat :: 0 < n <= |v| ==> !WellFormed(v[..n])
    ensures !IsUtf8(v)
  {
    hide WellFormed;
    forall cs: seq<nat> | AllScalar(cs)
      ensures EncodeAll(cs) != v
    {
      if cs != [] {
        var w := EncodeAll(cs);
        var e := Encode(cs[0]);
        EncodingIsWellFormed(cs[0]);
        assert w[..|e|] == e;
      }
    }
  }

  /** The checks of one round of the loop fail: no prefix is well formed. */
  lemma BadHead(v: Bytes)
    requires v != []
    requires var n := LengthOf(v[0]);
             n == 0 || n > |v| || !WellFormed(v[..n])
    ensures !IsUtf8(v)
  {
    forall n: nat | 0 < n <= |v|
      ensures !WellFormed(v[..n])
    {
      assert v[..n][0] == v[0];
    }
    NoHead(v);
  }

  /** validUtf8 */
  method ValidUtf8(value: Bytes) returns (ok: bool)
    ensures ok <==> IsUtf8(value)
  {
    hide IsUtf8;
    var index := 0;
    assert value[0..] == value;
    while index < |value|
      invariant index <= |value|
      invariant IsUtf8(value) <==> IsUtf8(value[index..])
    {
      ghost var v := value[index..];
      var first := value[index];
      var length := LengthOf(first);
      if length == 1 {
        assert v[..1] == [first] && WellFormed(v[..1]);
        HeadThenRest(v, 1);
        assert v[1..] == value[index + 1..];
        index := index + 1;
        continue;
      }
      if length == 0 || index + length > |value| {
        BadHead(v);
        return false;
      }
      ghost var e := v[..length];
      var codepoint: nat := LeadBits(first, length);
      var offset := 1;
      while offset < length
        invariant 1 <= offset <= length
        invariant forall i :: 1 <= i < offset ==> IsContinuation(e[i])
        invariant codepoint == Collected(e, length, offset)
      {
        var next := value[index + offset];
        assert next == e[offset];
        if !IsContinuation(next) {
          assert !WellFormed(e);
          BadHead(v);
          return false;
        }
        codepoint := Join(codepoint, next);
        offset := offset + 1;
      }
      if Rejected(codepoint, length) {
        BadHead(v);
        return false;
      }
      assert WellFormed(e);
      HeadThenRest(v, length);
      assert v[length..] == value[index + length..];
      index := index + length;
    }
    assert value[index..] == [];
    NothingIsUtf8();
    ok := true;
  }

  lemma NothingIsUtf8()
    ensures IsUtf8([])
  {
    assert EncodeAll([]) == [];
  }
}
