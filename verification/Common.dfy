// Values shared by every module of the model.

/** Optional values, bytes, and SHA-256 as a free (hence injective) constructor. */
module Common {

  datatype Option<+T> = None | Some(value: T)

  type Byte = b: nat | b < 256

  type Bytes = seq<Byte>

  /** A 256-bit digest. `Sha256(c)` is the digest of `c`; being a constructor it is injective.
      `Foreign` stands for a 64-digit hex string that is the digest of nothing anybody holds. */
  datatype Digest = Sha256(content: Bytes) | Foreign(tag: string)

  function Min(a: int, b: int): int {
    if a <= b then a else b
  }

  function Max(a: int, b: int): int {
    if a <= b then b else a
  }

  predicate Ascending(s: seq<nat>) {
    forall i, j :: 0 <= i < j < |s| ==> s[i] < s[j]
  }

  function Pow256(n: nat): (p: nat)
    ensures p > 0
  {
    if n == 0 then 1 else 256 * Pow256(n - 1)
  }

  lemma MulMonotone(a: nat, b: nat, k: nat)
    requires a <= b
    ensures a * k <= b * k
  {
    assert b * k == a * k + (b - a) * k;
  }

  /** A subset of {0, ..., n-1} with n elements is all of it. */
  lemma {:induction false} FullBelow(s: set<nat>, n: nat)
    requires forall c <- s :: c < n
    ensures |s| <= n
    ensures |s| == n ==> forall c: nat :: c < n ==> c in s
  {
    if n == 0 {
      assert s == {};
    } else {
      var rest := s - {n - 1};
      FullBelow(rest, n - 1);
      if n - 1 in s {
        assert s == rest + {n - 1};
        assert |s| == |rest| + 1;
      } else {
        assert s == rest;
      }
    }
  }

  /** A subset is no larger. */
  lemma {:induction false} SubsetSize<T>(a: set<T>, b: set<T>)
    requires a <= b
    ensures |a| <= |b|
  {
    if a != {} {
      var x :| x in a;
      SubsetSize(a - {x}, b - {x});
    }
  }
}
