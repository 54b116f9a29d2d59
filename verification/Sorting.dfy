// std::sort as a specification: some arrangement of the elements in order; unique when no ties differ.

module Sorting {

  ghost predicate TotalPreorder<T(!new)>(le: (T, T) -> bool) {
    && (forall x, y :: le(x, y) || le(y, x))
    && (forall x, y, z :: le(x, y) && le(y, z) ==> le(x, z))
  }

  ghost predicate Ordered<T>(s: seq<T>, le: (T, T) -> bool) {
    forall i, j :: 0 <= i < j < |s| ==> le(s[i], s[j])
  }

  lemma {:induction false} Insert<T(!new)>(sorted: seq<T>, x: T, le: (T, T) -> bool) returns (r: seq<T>)
    requires TotalPreorder(le) && Ordered(sorted, le)
    ensures Ordered(r, le) && multiset(r) == multiset(sorted) + multiset{x}
  {
    if sorted == [] || le(sorted[|sorted| - 1], x) {
      r := sorted + [x];
    } else {
      var k := |sorted| - 1;
      var rest := Insert(sorted[..k], x, le);
      assert sorted == sorted[..k] + [sorted[k]];
      AllBefore(rest, sorted, x, le);
      r := rest + [sorted[k]];
    }
  }

  lemma FromEither<T>(rest: seq<T>, before: seq<T>, x: T, i: nat)
    requires multiset(rest) == multiset(before) + multiset{x} && i < |rest|
    ensures rest[i] == x || rest[i] in before
  {
    assert rest[i] in multiset(rest);
  }

  lemma AllBefore<T(!new)>(rest: seq<T>, sorted: seq<T>, x: T, le: (T, T) -> bool)
    requires sorted != [] && Ordered(sorted, le) && le(x, sorted[|sorted| - 1])
    requires multiset(rest) == multiset(sorted[..|sorted| - 1]) + multiset{x}
    ensures forall i :: 0 <= i < |rest| ==> le(rest[i], sorted[|sorted| - 1])
  {
    forall i | 0 <= i < |rest|
      ensures le(rest[i], sorted[|sorted| - 1])
    {
      FromEither(rest, sorted[..|sorted| - 1], x, i);
    }
  }

  lemma {:induction false} CanSort<T(!new)>(s: seq<T>, le: (T, T) -> bool) returns (sorted: seq<T>)
    requires TotalPreorder(le)
    ensures Ordered(sorted, le) && multiset(sorted) == multiset(s)
  {
    if s == [] {
      sorted := [];
    } else {
      var k := |s| - 1;
      var rest := CanSort(s[..k], le);
      sorted := Insert(rest, s[k], le);
      assert s == s[..k] + [s[k]];
    }
  }

  /** Without ties between different elements there is only one sorted arrangement. */
  lemma {:induction false} SortUnique<T(!new)>(a: seq<T>, b: seq<T>, le: (T, T) -> bool)
    requires Ordered(a, le) && Ordered(b, le) && multiset(a) == multiset(b)
    requires forall x, y :: le(x, y) && le(y, x) ==> x == y
    ensures a == b
    decreases |a|
  {
    assert |a| == |multiset(a)| && |b| == |multiset(b)|;
    if a != [] {
      SameFirst(a, b, le);
      WithoutFirst(a);
      WithoutFirst(b);
      SortUnique(a[1..], b[1..], le);
    }
  }

  lemma WithoutFirst<T>(s: seq<T>)
    requires s != []
    ensures s == [s[0]] + s[1..] && multiset(s[1..]) == multiset(s) - multiset{s[0]}
  {
    assert s == [s[0]] + s[1..];
  }

  lemma SameFirst<T(!new)>(a: seq<T>, b: seq<T>, le: (T, T) -> bool)
    requires Ordered(a, le) && Ordered(b, le) && multiset(a) == multiset(b) && a != [] && b != []
    requires forall x, y :: le(x, y) && le(y, x) ==> x == y
    ensures a[0] == b[0]
  {
    assert a[0] in multiset(b) && b[0] in multiset(a);
    var i :| 0 <= i < |b| && b[i] == a[0];
    var j :| 0 <= j < |a| && a[j] == b[0];
    if i > 0 && j > 0 {
      assert le(b[0], b[i]) && le(a[0], a[j]);
    }
  }
}
