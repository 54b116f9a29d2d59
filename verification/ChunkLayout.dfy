// How a file is cut into chunks, on the server and on the Collector.

module ChunkLayout {
  import opened Common

  /** The number of chunks the server derives from a create request. */
  function ChunkCount(fileSize: nat, chunkSize: nat): nat
    requires chunkSize > 0
  {
    (fileSize + chunkSize - 1) / chunkSize
  }

  function Offset(chunkSize: nat, c: nat): nat {
    c * chunkSize
  }

  /** The body length the server demands for chunk `c`. */
  function ExpectedLength(fileSize: nat, chunkSize: nat, c: nat): int
    requires chunkSize > 0
  {
    if c + 1 == ChunkCount(fileSize, chunkSize) then fileSize - Offset(chunkSize, c) else chunkSize
  }

  /** The body length the Collector reads from its payload for chunk `c`. */
  function ReadLength(fileSize: nat, chunkSize: nat, c: nat): int {
    Min(chunkSize, fileSize - Offset(chunkSize, c))
  }

  lemma CountBounds(fileSize: nat, chunkSize: nat)
    requires chunkSize > 0
    ensures fileSize <= ChunkCount(fileSize, chunkSize) * chunkSize < fileSize + chunkSize
  {
    var total := fileSize + chunkSize - 1;
    assert total == chunkSize * (total / chunkSize) + total % chunkSize;
    assert (total / chunkSize) * chunkSize == chunkSize * (total / chunkSize);
  }

  lemma MulStep(a: nat, b: nat, k: nat)
    requires a < b
    ensures a * k + k <= b * k
  {
    MulMonotone(a + 1, b, k);
    assert (a + 1) * k == a * k + k;
  }

  lemma InRange(fileSize: nat, chunkSize: nat, c: nat)
    requires chunkSize > 0 && c < ChunkCount(fileSize, chunkSize)
    ensures Offset(chunkSize, c) < fileSize
    ensures 0 < ExpectedLength(fileSize, chunkSize, c) <= chunkSize
    ensures Offset(chunkSize, c) + ExpectedLength(fileSize, chunkSize, c) <= fileSize
    ensures c + 1 < ChunkCount(fileSize, chunkSize) ==> Offset(chunkSize, c) + chunkSize <= fileSize
  {
    CountBounds(fileSize, chunkSize);
    var n := ChunkCount(fileSize, chunkSize);
    assert n * chunkSize == (n - 1) * chunkSize + chunkSize;
    MulMonotone(c, n - 1, chunkSize);
    if c + 1 < n {
      MulMonotone(c + 1, n - 1, chunkSize);
      assert (c + 1) * chunkSize == c * chunkSize + chunkSize;
    }
  }

  /** Server and Collector agree on the length of every chunk, for all sizes. */
  lemma LengthsAgree(fileSize: nat, chunkSize: nat, c: nat)
    requires chunkSize > 0 && c < ChunkCount(fileSize, chunkSize)
    ensures ReadLength(fileSize, chunkSize, c) == ExpectedLength(fileSize, chunkSize, c)
  {
    InRange(fileSize, chunkSize, c);
  }

  /** Position `p` lies in the region of chunk `c`. */
  predicate Covers(fileSize: nat, chunkSize: nat, c: nat, p: nat)
    requires chunkSize > 0
  {
    Offset(chunkSize, c) <= p < Offset(chunkSize, c) + ExpectedLength(fileSize, chunkSize, c)
  }

  /** The chunks tile [0, fileSize): every position lies in exactly one chunk, and nothing else does. */
  lemma Tiling(fileSize: nat, chunkSize: nat, p: nat)
    requires chunkSize > 0
    ensures p < fileSize ==>
              p / chunkSize < ChunkCount(fileSize, chunkSize) && Covers(fileSize, chunkSize, p / chunkSize, p)
    ensures forall c: nat :: c < ChunkCount(fileSize, chunkSize) && Covers(fileSize, chunkSize, c, p)
              ==> p < fileSize && c == p / chunkSize
  {
    CountBounds(fileSize, chunkSize);
    var q := p / chunkSize;
    assert p == chunkSize * q + p % chunkSize;
    assert q * chunkSize == chunkSize * q;
    if p < fileSize {
      var n := ChunkCount(fileSize, chunkSize);
      if q >= n {
        MulMonotone(n, q, chunkSize);
        assert false;
      }
      if q + 1 == n {
        assert Covers(fileSize, chunkSize, q, p);
      }
    }
    forall c: nat | c < ChunkCount(fileSize, chunkSize) && Covers(fileSize, chunkSize, c, p)
      ensures p < fileSize && c == q
    {
      InRange(fileSize, chunkSize, c);
      if c < q {
        MulStep(c, q, chunkSize);
      } else if c > q {
        MulStep(q, c, chunkSize);
      }
    }
  }

  /** Where each chunk starts, and where the last one ends. */
  function Starts(fileSize: nat, chunkSize: nat): seq<nat>
    requires chunkSize > 0
  {
    seq(ChunkCount(fileSize, chunkSize) + 1, c requires c >= 0 => Min(Offset(chunkSize, c), fileSize))
  }

  /** Cut points that split [0, size) into non-empty consecutive pieces. */
  ghost predicate Cuts(start: seq<nat>, size: nat) {
    && |start| >= 2 && start[0] == 0 && start[|start| - 1] == size
    && forall c, d :: 0 <= c < d < |start| ==> start[c] < start[d]
  }

  /** The server's cut points split every non-empty file, and the piece between two of them has the
      length the server demands of that chunk and the Collector reads for it. */
  lemma StartsCut(fileSize: nat, chunkSize: nat)
    requires fileSize > 0 && chunkSize > 0
    ensures Cuts(Starts(fileSize, chunkSize), fileSize)
    ensures |Starts(fileSize, chunkSize)| == ChunkCount(fileSize, chunkSize) + 1
    ensures forall c: nat :: c < ChunkCount(fileSize, chunkSize) ==>
              && Starts(fileSize, chunkSize)[c] == Offset(chunkSize, c)
              && Starts(fileSize, chunkSize)[c + 1] - Starts(fileSize, chunkSize)[c]
                 == ExpectedLength(fileSize, chunkSize, c) == ReadLength(fileSize, chunkSize, c)
  {
    var start := Starts(fileSize, chunkSize);
    var n := ChunkCount(fileSize, chunkSize);
    CountBounds(fileSize, chunkSize);
    if n == 0 {
      assert false;
    }
    forall c: nat | c < n
      ensures start[c] == Offset(chunkSize, c)
      ensures start[c + 1] == Offset(chunkSize, c) + ExpectedLength(fileSize, chunkSize, c)
    {
      InRange(fileSize, chunkSize, c);
      assert (c + 1) * chunkSize == c * chunkSize + chunkSize;
    }
    forall c, d | 0 <= c < d < |start|
      ensures start[c] < start[d]
    {
      InRange(fileSize, chunkSize, c);
      if d < n {
        MulStep(c, d, chunkSize);
      }
    }
    forall c: nat | c < n
      ensures ExpectedLength(fileSize, chunkSize, c) == ReadLength(fileSize, chunkSize, c)
    {
      LengthsAgree(fileSize, chunkSize, c);
    }
  }
}
