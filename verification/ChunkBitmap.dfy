// The Redis bitmap of finished chunks, byte by byte: SETBIT, BITCOUNT and the server's reader.

module ChunkBitmap {
  import opened Common

  /** The mask of bit `k` of a byte; bit 0 is the most significant one. */
  function Mask(k: nat): bv8
    requires k < 8
  {
    match k
    case 0 => 0x80
    case 1 => 0x40
    case 2 => 0x20
    case 3 => 0x10
    case 4 => 0x08
    case 5 => 0x04
    case 6 => 0x02
    case 7 => 0x01
  }

  function Has(v: bv8, k: nat): bool
    requires k < 8
  {
    v & Mask(k) != 0
  }

  /** bitmapContains */
  function Contains(bitmap: seq<bv8>, chunk: nat): bool {
    chunk / 8 < |bitmap| && Has(bitmap[chunk / 8], chunk % 8)
  }

  /** SETBIT key chunk 1: the string is padded with zero bytes as far as needed. */
  function SetBit(bitmap: seq<bv8>, chunk: nat): (out: seq<bv8>)
    ensures |out| == Max(|bitmap|, chunk / 8 + 1)
  {
    var padded := Pad(bitmap, chunk / 8 + 1);
    padded[chunk / 8 := padded[chunk / 8] | Mask(chunk % 8)]
  }

  function Pad(bitmap: seq<bv8>, size: nat): (out: seq<bv8>)
    ensures |out| == Max(|bitmap|, size)
    ensures forall i :: 0 <= i < |out| ==> out[i] == if i < |bitmap| then bitmap[i] else 0
  {
    if |bitmap| >= size then bitmap else bitmap + seq(size - |bitmap|, _ => 0)
  }

  lemma MaskFacts(v: bv8, j: nat, k: nat)
    requires j < 8 && k < 8
    ensures Has(v | Mask(j), k) <==> j == k || Has(v, k)
    ensures !Has(0, k)
  {
  }

  /** Setting one chunk's bit makes exactly that chunk, and those before, present. */
  lemma SetThenContains(bitmap: seq<bv8>, chunk: nat, other: nat)
    ensures Contains(SetBit(bitmap, chunk), other) <==> other == chunk || Contains(bitmap, other)
  {
    var padded := Pad(bitmap, chunk / 8 + 1);
    if other / 8 < |padded| {
      MaskFacts(padded[other / 8], chunk % 8, other % 8);
    }
  }

  // ---------------------------------------------------------------- BITCOUNT

  /** The set of chunks a bitmap stands for. */
  ghost function Bits(bitmap: seq<bv8>): set<nat> {
    set c | 0 <= c < 8 * |bitmap| && Contains(bitmap, c)
  }

  /** A chunk is reported present exactly when it is in the set. */
  lemma ContainsIsMember(bitmap: seq<bv8>, chunk: nat)
    ensures chunk in Bits(bitmap) <==> Contains(bitmap, chunk)
  {
    assert chunk == 8 * (chunk / 8) + chunk % 8;
  }

  /** SETBIT adds the chunk to the set. */
  lemma SetBitAdds(bitmap: seq<bv8>, chunk: nat)
    ensures Bits(SetBit(bitmap, chunk)) == Bits(bitmap) + {chunk}
  {
    hide SetBit, Contains, Bits;
    forall c: nat
      ensures c in Bits(SetBit(bitmap, chunk)) <==> c in Bits(bitmap) || c == chunk
    {
      ContainsIsMember(bitmap, c);
      ContainsIsMember(SetBit(bitmap, chunk), c);
      SetThenContains(bitmap, chunk, c);
    }
  }

  function Pop(v: bv8, k: nat): nat
    requires k <= 8
  {
    if k == 0 then 0 else Pop(v, k - 1) + if Has(v, k - 1) then 1 else 0
  }

  /** BITCOUNT: the set bits of every byte, summed. */
  function BitCount(bitmap: seq<bv8>): nat {
    if bitmap == [] then 0 else BitCount(bitmap[..|bitmap| - 1]) + Pop(bitmap[|bitmap| - 1], 8)
  }

  ghost function ByteChunks(v: bv8, base: nat, k: nat): set<nat>
    requires k <= 8
  {
    set j | 0 <= j < k && Has(v, j) :: base + j
  }

  lemma {:induction false} PopCounts(v: bv8, base: nat, k: nat)
    requires k <= 8
    ensures |ByteChunks(v, base, k)| == Pop(v, k)
  {
    hide Has;
    if k > 0 {
      PopCounts(v, base, k - 1);
      var all, some := ByteChunks(v, base, k), ByteChunks(v, base, k - 1);
      if Has(v, k - 1) {
        assert all == some + {base + k - 1};
        assert base + k - 1 !in some;
      } else {
        assert all == some;
      }
    } else {
      assert ByteChunks(v, base, k) == {};
    }
  }

  lemma SplitBits(bitmap: seq<bv8>, n: nat)
    requires |bitmap| == n + 1
    ensures Bits(bitmap) == Bits(bitmap[..n]) + ByteChunks(bitmap[n], 8 * n, 8)
    ensures Bits(bitmap[..n]) !! ByteChunks(bitmap[n], 8 * n, 8)
  {
    hide Has;
    var last := ByteChunks(bitmap[n], 8 * n, 8);
    forall c: nat | c < 8 * |bitmap|
      ensures c in Bits(bitmap) <==> c in Bits(bitmap[..n]) || c in last
    {
      if c >= 8 * n {
        assert c / 8 == n && c == 8 * n + c % 8;
        assert c in last <==> Has(bitmap[n], c % 8);
      }
    }
  }

  /** BITCOUNT is the number of finished chunks. */
  lemma {:induction false} BitCountIsSize(bitmap: seq<bv8>)
    ensures BitCount(bitmap) == |Bits(bitmap)|
  {
    hide Has;
    if bitmap == [] {
      assert Bits(bitmap) == {};
    } else {
      var n := |bitmap| - 1;
      var init := bitmap[..n];
      BitCountIsSize(init);
      var last := ByteChunks(bitmap[n], 8 * n, 8);
      PopCounts(bitmap[n], 8 * n, 8);
      SplitBits(bitmap, n);
    }
  }

  /** When all set bits are chunk numbers and the bit count equals the number of chunks, the progress
      report has no missing chunk; and the other way round. */
  lemma FullBitmap(bitmap: seq<bv8>, count: nat)
    requires forall c <- Bits(bitmap) :: c < count
    ensures BitCount(bitmap) == count <==> forall c: nat :: c < count ==> Contains(bitmap, c)
  {
    hide Has;
    BitCountIsSize(bitmap);
    FullBelow(Bits(bitmap), count);
    forall c: nat
      ensures c in Bits(bitmap) <==> Contains(bitmap, c)
    {
      ContainsIsMember(bitmap, c);
    }
    if forall c: nat :: c < count ==> Contains(bitmap, c) {
      Full(Bits(bitmap), count);
    }
  }

  lemma {:induction false} Full(s: set<nat>, count: nat)
    requires forall c: nat :: c < count ==> c in s
    requires forall c <- s :: c < count
    ensures |s| == count
  {
    if count > 0 {
      Full(s - {count - 1}, count - 1);
    }
  }
}
