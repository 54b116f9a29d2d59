// Sets listed in a strict order that is total on them: there is exactly one way to list them, and
// cutting the listing is filtering the set.

module Ranking {

  /** A strict order ... */
  ghost predicate StrictOrder<T(!new)>(before: (T, T) -> bool) {
    && (forall x :: !before(x, x))
    && (forall x, y, z :: before(x, y) && before(y, z) ==> before(x, z))
  }

  /** ... under which no two elements of `x` tie. */
  ghost predicate TotalOn<T(!new)>(x: set<T>, before: (T, T) -> bool) {
    forall a <- x, b <- x :: a != b ==> before(a, b) || before(b, a)
  }

  ghost predicate Orders<T(!new)>(x: set<T>, before: (T, T) -> bool) {
    StrictOrder(before) && TotalOn(x, before)
  }

  ghost predicate Sorted<T>(s: seq<T>, before: (T, T) -> bool) {
    forall i, j :: 0 <= i < j < |s| ==> before(s[i], s[j])
  }

  /** `s` lists the elements of `x`, each once, in order. */
  ghost predicate Lists<T(!new)>(s: seq<T>, x: set<T>, before: (T, T) -> bool) {
    Sorted(s, before) && forall t :: t in x <==> t in s
  }

  lemma {:induction false} HasFirst<T(!new)>(x: set<T>, before: (T, T) -> bool) returns (first: T)
    requires Orders(x, before) && x != {}
    ensures first in x && forall t <- x :: t == first || before(first, t)
  {
    var e :| e in x;
    var rest := x - {e};
    if rest == {} {
      first := e;
      assert x == {e};
    } else {
      var f := HasFirst(rest, before);
      assert f in x && e in x;
      first := if before(e, f) then e else f;
      forall t | t in x && t != first
        ensures before(first, t)
      {
        if t != e && t != f {
          assert t in rest && before(f, t);
        }
      }
    }
  }

  /** The last element, which a heap with the reversed order keeps on top. */
  lemma {:induction false} HasLast<T(!new)>(x: set<T>, before: (T, T) -> bool) returns (last: T)
    requires Orders(x, before) && x != {}
    ensures last in x && forall t <- x :: t == last || before(t, last)
  {
    var e :| e in x;
    var rest := x - {e};
    if rest == {} {
      last := e;
      assert x == {e};
    } else {
      var f := HasLast(rest, before);
      assert f in x && e in x;
      last := if before(f, e) then e else f;
      forall t | t in x && t != last
        ensures before(t, last)
      {
        if t != e && t != f {
          assert t in rest && before(t, f);
        }
      }
    }
  }

  lemma {:induction false} CanList<T(!new)>(x: set<T>, before: (T, T) -> bool) returns (s: seq<T>)
    requires Orders(x, before)
    ensures Lists(s, x, before)
    decreases x
  {
    if x == {} {
      s := [];
    } else {
      var first := HasFirst(x, before);
      var rest := CanList(x - {first}, before);
      s := [first] + rest;
    }
  }

  lemma TailLists<T(!new)>(a: seq<T>, x: set<T>, before: (T, T) -> bool)
    requires Orders(x, before) && Lists(a, x, before) && a != []
    ensures a[0] in x && Lists(a[1..], x - {a[0]}, before) && Orders(x - {a[0]}, before)
  {
    forall t
      ensures t in x - {a[0]} <==> t in a[1..]
    {
      if t in a[1..] {
        var i :| 0 <= i < |a[1..]| && a[1..][i] == t;
        assert before(a[0], a[i + 1]);
      }
      if t in x && t != a[0] {
        var i :| 0 <= i < |a| && a[i] == t;
        assert a[1..][i - 1] == t;
      }
    }
  }

  lemma {:induction false} ListSize<T(!new)>(a: seq<T>, x: set<T>, before: (T, T) -> bool)
    requires Orders(x, before) && Lists(a, x, before)
    ensures |a| == |x|
    decreases |a|
  {
    if a == [] {
      assert x == {};
    } else {
      TailLists(a, x, before);
      ListSize(a[1..], x - {a[0]}, before);
    }
  }

  lemma {:induction false} ListingUnique<T(!new)>(a: seq<T>, b: seq<T>, x: set<T>, before: (T, T) -> bool)
    requires Orders(x, before) && Lists(a, x, before) && Lists(b, x, before)
    ensures a == b && |a| == |x|
    decreases |a|
  {
    ListSize(a, x, before);
    ListSize(b, x, before);
    if a != [] {
      assert a[0] in x && b[0] in x;
      var i :| 0 <= i < |b| && b[i] == a[0];
      var j :| 0 <= j < |a| && a[j] == b[0];
      assert i == 0 && j == 0;
      TailLists(a, x, before);
      TailLists(b, x, before);
      ListingUnique(a[1..], b[1..], x - {a[0]}, before);
    }
  }

  lemma ListingExists<T(!new)>(x: set<T>, before: (T, T) -> bool)
    requires Orders(x, before)
    ensures exists s :: Lists(s, x, before)
  {
    var s := CanList(x, before);
  }

  /** The one listing of a set. */
  ghost function Listing<T(!new)>(x: set<T>, before: (T, T) -> bool): (s: seq<T>)
    requires Orders(x, before)
    ensures Lists(s, x, before) && |s| == |x|
  {
    ListingExists(x, before);
    var s :| Lists(s, x, before);
    ListingUnique(s, s, x, before);
    s
  }

  lemma IsListing<T(!new)>(s: seq<T>, x: set<T>, before: (T, T) -> bool)
    requires Orders(x, before) && Lists(s, x, before)
    ensures s == Listing(x, before)
  {
    ListingUnique(s, Listing(x, before), x, before);
  }

  /** What comes after the first `n` is the listing of the elements beyond the last of them. */
  lemma RestIsListing<T(!new)>(x: set<T>, beyond: set<T>, before: (T, T) -> bool, n: nat)
    requires Orders(x, before) && 0 < n <= |x|
    requires forall t :: t in beyond <==> t in x && before(Listing(x, before)[n - 1], t)
    ensures Orders(beyond, before) && Listing(x, before)[n..] == Listing(beyond, before) && |beyond| < |x|
  {
    var s := Listing(x, before);
    assert beyond <= x;
    forall t
      ensures t in beyond <==> t in s[n..]
    {
      if t in beyond {
        var i :| 0 <= i < |s| && s[i] == t;
        assert i >= n;
        assert s[n..][i - n] == t;
      }
      if t in s[n..] {
        var i :| 0 <= i < |s[n..]| && s[n..][i] == t;
        assert s[n + i] == t && before(s[n - 1], s[n + i]);
      }
    }
    IsListing(s[n..], beyond, before);
  }

  /** A set whose members all precede the rest of `x` is listed by the first part of the listing of `x`. */
  lemma TopIsPrefix<T(!new)>(x: set<T>, top: set<T>, before: (T, T) -> bool)
    requires Orders(x, before) && top <= x
    requires forall a, b :: a in top && b in x && b !in top ==> before(a, b)
    ensures Orders(top, before) && |top| <= |x| && Listing(top, before) == Listing(x, before)[..|top|]
  {
    var t, r := Listing(top, before), Listing(x - top, before);
    var s := t + r;
    forall i, j | 0 <= i < j < |s|
      ensures before(s[i], s[j])
    {
      if i < |t| <= j {
        assert t[i] in top && r[j - |t|] in x - top;
      }
    }
    IsListing(s, x, before);
  }

  /** The elements that come before `e`. */
  ghost function Preceding<T(!new)>(x: set<T>, before: (T, T) -> bool, e: T): set<T> {
    set t | t in x && before(t, e)
  }

  /** The element at a position has exactly that many before it. */
  lemma RankInListing<T(!new)>(x: set<T>, before: (T, T) -> bool, k: nat)
    requires Orders(x, before) && k < |x|
    ensures |Preceding(x, before, Listing(x, before)[k])| == k
  {
    var s := Listing(x, before);
    var smaller := Preceding(x, before, s[k]);
    forall t
      ensures t in smaller <==> t in s[..k]
    {
      if t in smaller {
        var i :| 0 <= i < |s| && s[i] == t;
        assert i < k;
        assert s[..k][i] == t;
      }
      if t in s[..k] {
        var i :| 0 <= i < k && s[..k][i] == t;
        assert s[i] in x;
      }
    }
    ListSize(s[..k], smaller, before);
  }

  /** Iterating over a std::set, or over the keys of a std::map. */
  method InOrder<T(!new, ==)>(x: set<T>, before: (T, T) -> bool) returns (s: seq<T>)
    requires Orders(x, before)
    ensures s == Listing(x, before)
  {
    s := [];
    var rest := x;
    while rest != {}
      invariant rest <= x && Sorted(s, before)
      invariant forall t :: t in x <==> t in s || t in rest
      invariant forall a, b :: a in s && b in rest ==> before(a, b)
      decreases rest
    {
      ghost var f := HasFirst(rest, before);
      var first :| first in rest && forall t <- rest :: t == first || before(first, t);
      s := s + [first];
      rest := rest - {first};
    }
    IsListing(s, x, before);
  }
}
