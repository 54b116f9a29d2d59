// SlruCache: a segmented LRU of two lists and a map.

module Slru {
  import opened Common

  datatype Entry<+V> = Entry(value: V, isProtected: bool)

  /** The whole state: both lists with the most recent key first, and the entries. */
  datatype Cache<K(==), V> = Cache(probation: seq<K>, guarded: seq<K>, entries: map<K, Entry<V>>)

  ghost predicate NoRepeat<K>(s: seq<K>) {
    forall i, j :: 0 <= i < j < |s| ==> s[i] != s[j]
  }

  /** The map domain is the disjoint union of the lists, the flags say which, and both capacities hold. */
  ghost predicate Valid<K, V>(c: Cache<K, V>, probationCapacity: nat, protectedCapacity: nat) {
    && NoRepeat(c.probation) && NoRepeat(c.guarded)
    && (forall k <- c.entries :: k in c.probation || k in c.guarded)
    && (forall k <- c.probation :: k in c.entries && k !in c.guarded)
    && (forall k <- c.guarded :: k in c.entries)
    && (forall k <- c.entries :: c.entries[k].isProtected <==> k in c.guarded)
    && |c.probation| <= probationCapacity && |c.guarded| <= protectedCapacity
  }

  /** std::list::erase of the node of a key. */
  function Without<K(==)>(s: seq<K>, k: K): (r: seq<K>)
    ensures |r| <= |s|
  {
    if s == [] then [] else if s[0] == k then s[1..] else [s[0]] + Without(s[1..], k)
  }

  lemma {:induction false} WithoutOne<K(!new)>(s: seq<K>, k: K)
    requires NoRepeat(s)
    ensures NoRepeat(Without(s, k)) && (forall x :: x in Without(s, k) <==> x in s && x != k)
    ensures |Without(s, k)| == |s| - if k in s then 1 else 0
  {
    if s != [] {
      assert s == [s[0]] + s[1..];
      WithoutOne(s[1..], k);
      var r := Without(s[1..], k);
      if s[0] != k {
        assert s[0] !in r;
        assert Without(s, k) == [s[0]] + r;
      }
    }
  }

  // ---------------------------------------------------------------- what each operation does

  function Evicted<K, V>(c: Cache<K, V>, probationCapacity: nat): Cache<K, V> {
    if |c.probation| <= probationCapacity || c.probation == [] then c
    else
      var last := c.probation[|c.probation| - 1];
      c.(probation := c.probation[..|c.probation| - 1], entries := c.entries - {last})
  }

  function Demoted<K, V>(c: Cache<K, V>, probationCapacity: nat, protectedCapacity: nat): Cache<K, V> {
    if |c.guarded| <= protectedCapacity || c.guarded == [] then c
    else
      var last := c.guarded[|c.guarded| - 1];
      var entry := if last in c.entries then c.entries[last := Entry(c.entries[last].value, false)] else c.entries;
      Evicted(Cache([last] + c.probation, c.guarded[..|c.guarded| - 1], entry), probationCapacity)
  }

  function AfterGet<K, V>(c: Cache<K, V>, probationCapacity: nat, protectedCapacity: nat, k: K): Cache<K, V> {
    if k !in c.entries then c
    else if c.entries[k].isProtected then c.(guarded := [k] + Without(c.guarded, k))
    else
      Demoted(Cache(Without(c.probation, k), [k] + c.guarded, c.entries[k := Entry(c.entries[k].value, true)]),
              probationCapacity, protectedCapacity)
  }

  function AfterPut<K, V>(c: Cache<K, V>, probationCapacity: nat, k: K, v: V): Cache<K, V> {
    if k in c.entries then
      var entries := c.entries[k := Entry(v, c.entries[k].isProtected)];
      if c.entries[k].isProtected then Cache(c.probation, [k] + Without(c.guarded, k), entries)
      else Cache([k] + Without(c.probation, k), c.guarded, entries)
    else Evicted(Cache([k] + c.probation, c.guarded, c.entries[k := Entry(v, false)]), probationCapacity)
  }

  function AfterErase<K, V>(c: Cache<K, V>, k: K): Cache<K, V> {
    if k !in c.entries then c
    else if c.entries[k].isProtected then c.(guarded := Without(c.guarded, k), entries := c.entries - {k})
    else c.(probation := Without(c.probation, k), entries := c.entries - {k})
  }

  /** `r` is `s` without the key, in the same order. */
  ghost predicate Removed<K>(s: seq<K>, k: K, r: seq<K>) {
    exists i :: 0 <= i < |s| && s[i] == k && r == s[..i] + s[i + 1..]
  }

  lemma {:induction false} WithoutRemoves<K(!new)>(s: seq<K>, k: K)
    requires k in s
    ensures Removed(s, k, Without(s, k))
  {
    if s[0] == k {
      assert s[1..] == s[..0] + s[0 + 1..];
    } else {
      var rest := s[1..];
      assert s == [s[0]] + rest;
      WithoutRemoves(rest, k);
      var i :| 0 <= i < |rest| && rest[i] == k && Without(rest, k) == rest[..i] + rest[i + 1..];
      RemovedLater(s, k, i, Without(rest, k));
    }
  }

  lemma RemovedLater<K>(s: seq<K>, k: K, i: nat, r: seq<K>)
    requires i + 1 < |s| && s[i + 1] == k && r == s[1..][..i] + s[1..][i + 1..]
    ensures Removed(s, k, [s[0]] + r)
  {
    var j := i + 1;
    assert s[..j] == [s[0]] + s[1..][..i] && s[j + 1..] == s[1..][i + 1..];
    assert [s[0]] + r == s[..j] + s[j + 1..];
  }

  /** The oldest protected key makes room for the new one and goes to the front of probation. */
  lemma OldestGoesBack<K(!new), V>(c: Cache<K, V>, p: nat, g: nat, k: K)
    requires Valid(c, p, g) && 0 < g == |c.guarded| && k in c.probation
    ensures var oldest := c.guarded[g - 1];
            var promoted := c.entries[k := Entry(c.entries[k].value, true)];
            AfterGet(c, p, g, k)
            == Cache([oldest] + Without(c.probation, k), [k] + c.guarded[..g - 1],
                     promoted[oldest := Entry(c.entries[oldest].value, false)])
  {
    WithoutOne(c.probation, k);
    assert ([k] + c.guarded)[g] == c.guarded[g - 1] && ([k] + c.guarded)[..g] == [k] + c.guarded[..g - 1];
  }

  /** What a hit does: the key becomes the most recent protected one, and when there is no room for it the oldest
      protected key goes to the front of probation. Nothing else moves, and nothing is evicted. */
  lemma HitMoves<K(!new), V>(c: Cache<K, V>, p: nat, g: nat, k: K)
    requires Valid(c, p, g) && g > 0 && k in c.entries
    ensures var n := AfterGet(c, p, g, k);
            && n.guarded != [] && n.guarded[0] == k
            && (k in c.guarded ==>
                  Removed(c.guarded, k, n.guarded[1..]) && n.probation == c.probation && n.entries == c.entries)
            && (k !in c.guarded && |c.guarded| < g ==>
                  && n.guarded[1..] == c.guarded && Removed(c.probation, k, n.probation)
                  && n.entries == c.entries[k := Entry(c.entries[k].value, true)])
            && (k !in c.guarded && |c.guarded| == g ==>
                  var oldest := c.guarded[g - 1];
                  && n.guarded[1..] == c.guarded[..g - 1]
                  && n.probation != [] && n.probation[0] == oldest && Removed(c.probation, k, n.probation[1..])
                  && n.entries == c.entries[k := Entry(c.entries[k].value, true)]
                                           [oldest := Entry(c.entries[oldest].value, false)])
  {
    if k in c.guarded {
      WithoutRemoves(c.guarded, k);
    } else {
      WithoutRemoves(c.probation, k);
      hide Removed;
      if |c.guarded| == g {
        OldestGoesBack(c, p, g, k);
      }
    }
  }

  /** What storing a value does: a known key comes to the front of its list; a new one comes to the front of
      probation, whose oldest key is evicted when there is no room for it. */
  lemma PutMoves<K(!new), V>(c: Cache<K, V>, p: nat, g: nat, k: K, v: V)
    requires Valid(c, p, g) && p > 0
    ensures var n := AfterPut(c, p, k, v);
            && (k in c.guarded ==>
                  && n.guarded != [] && n.guarded[0] == k && Removed(c.guarded, k, n.guarded[1..])
                  && n.probation == c.probation && n.entries == c.entries[k := Entry(v, true)])
            && (k in c.probation ==>
                  && n.probation != [] && n.probation[0] == k && Removed(c.probation, k, n.probation[1..])
                  && n.guarded == c.guarded && n.entries == c.entries[k := Entry(v, false)])
            && (k !in c.entries ==> n.guarded == c.guarded)
            && (k !in c.entries && |c.probation| < p ==>
                  n.probation == [k] + c.probation && n.entries == c.entries[k := Entry(v, false)])
            && (k !in c.entries && |c.probation| == p ==>
                  && n.probation == [k] + c.probation[..p - 1]
                  && n.entries == c.entries[k := Entry(v, false)] - {c.probation[p - 1]})
  {
    if k in c.guarded {
      WithoutRemoves(c.guarded, k);
    } else if k in c.probation {
      WithoutRemoves(c.probation, k);
    } else if |c.probation| == p {
      assert ([k] + c.probation)[p] == c.probation[p - 1] && ([k] + c.probation)[..p] == [k] + c.probation[..p - 1];
    }
  }

  lemma EraseMoves<K(!new), V>(c: Cache<K, V>, p: nat, g: nat, k: K)
    requires Valid(c, p, g) && k in c.entries
    ensures var n := AfterErase(c, k);
            && n.entries == c.entries - {k}
            && (k in c.guarded ==> Removed(c.guarded, k, n.guarded) && n.probation == c.probation)
            && (k in c.probation ==> Removed(c.probation, k, n.probation) && n.guarded == c.guarded)
  {
    if k in c.guarded {
      WithoutRemoves(c.guarded, k);
    } else {
      WithoutRemoves(c.probation, k);
    }
  }

  // ---------------------------------------------------------------- the class

  class SlruCache<K(==, !new), V(0)> {
    const probationCapacity: nat
    const protectedCapacity: nat
    var probation: seq<K>
    var guarded: seq<K>
    var entries: map<K, Entry<V>>

    ghost function State(): Cache<K, V>
      reads this
    {
      Cache(probation, guarded, entries)
    }

    ghost predicate Ok()
      reads this
    {
      probationCapacity > 0 && protectedCapacity > 0 && Valid(State(), probationCapacity, protectedCapacity)
    }

    constructor (probationCapacity: nat, protectedCapacity: nat)
      requires probationCapacity > 0 && protectedCapacity > 0
      ensures Ok() && State() == Empty()
      ensures this.probationCapacity == probationCapacity && this.protectedCapacity == protectedCapacity
    {
      this.probationCapacity, this.protectedCapacity := probationCapacity, protectedCapacity;
      probation, guarded, entries := [], [], map[];
    }

    /** evictProbationIfNeeded */
    method EvictProbationIfNeeded()
      modifies this
      ensures State() == Evicted(old(State()), probationCapacity)
    {
      if |probation| <= probationCapacity || probation == [] {
        return;
      }
      entries := entries - {probation[|probation| - 1]};
      probation := probation[..|probation| - 1];
    }

    /** demoteProtectedIfNeeded */
    method DemoteProtectedIfNeeded()
      modifies this
      ensures State() == Demoted(old(State()), probationCapacity, protectedCapacity)
    {
      if |guarded| <= protectedCapacity || guarded == [] {
        return;
      }
      var key := guarded[|guarded| - 1];
      guarded := guarded[..|guarded| - 1];
      probation := [key] + probation;
      if key in entries {
        entries := entries[key := Entry(entries[key].value, false)];
      }
      EvictProbationIfNeeded();
    }

    /** get: the value of a hit, which becomes or stays the most recent protected key. */
    method Get(key: K) returns (r: Option<V>)
      requires Ok()
      modifies this
      ensures Ok()
      ensures r == if key in old(entries) then Some(old(entries)[key].value) else None
      ensures State() == AfterGet(old(State()), probationCapacity, protectedCapacity, key)
      ensures key !in old(entries) ==> State() == old(State())
      ensures key in old(entries) ==> guarded != [] && guarded[0] == key
      ensures key in old(guarded) ==>
                && Removed(old(guarded), key, guarded[1..])
                && probation == old(probation) && entries == old(entries)
      ensures key in old(probation) && |old(guarded)| < protectedCapacity ==>
                && guarded[1..] == old(guarded) && Removed(old(probation), key, probation)
                && entries == old(entries)[key := Entry(old(entries)[key].value, true)]
      ensures key in old(probation) && |old(guarded)| == protectedCapacity ==>
                var oldest := old(guarded)[protectedCapacity - 1];
                && guarded[1..] == old(guarded)[..protectedCapacity - 1]
                && probation != [] && probation[0] == oldest && Removed(old(probation), key, probation[1..])
                && oldest in old(entries)
                && entries == old(entries)[key := Entry(old(entries)[key].value, true)]
                                          [oldest := Entry(old(entries)[oldest].value, false)]
    {
      GetKeepsValid(State(), probationCapacity, protectedCapacity, key);
      if key in entries {
        HitMoves(State(), probationCapacity, protectedCapacity, key);
      }
      hide Valid, Removed;
      if key !in entries {
        return None;
      }
      r := Some(entries[key].value);
      if entries[key].isProtected {
        guarded := [key] + Without(guarded, key);
      } else {
        probation := Without(probation, key);
        guarded := [key] + guarded;
        entries := entries[key := Entry(entries[key].value, true)];
        DemoteProtectedIfNeeded();
      }
    }

    /** put: a new key enters probation, a known key is updated where it is. */
    method Put(key: K, value: V)
      requires Ok()
      modifies this
      ensures Ok() && State() == AfterPut(old(State()), probationCapacity, key, value)
      ensures key in old(guarded) ==>
                && guarded != [] && guarded[0] == key && Removed(old(guarded), key, guarded[1..])
                && probation == old(probation) && entries == old(entries)[key := Entry(value, true)]
      ensures key in old(probation) ==>
                && probation != [] && probation[0] == key && Removed(old(probation), key, probation[1..])
                && guarded == old(guarded) && entries == old(entries)[key := Entry(value, false)]
      ensures key !in old(entries) ==> guarded == old(guarded)
      ensures key !in old(entries) && |old(probation)| < probationCapacity ==>
                probation == [key] + old(probation) && entries == old(entries)[key := Entry(value, false)]
      ensures key !in old(entries) && |old(probation)| == probationCapacity ==>
                && probation == [key] + old(probation)[..probationCapacity - 1]
                && entries == old(entries)[key := Entry(value, false)] - {old(probation)[probationCapacity - 1]}
    {
      PutKeepsValid(State(), probationCapacity, protectedCapacity, key, value);
      PutMoves(State(), probationCapacity, protectedCapacity, key, value);
      hide Valid, Removed;
      if key in entries {
        entries := entries[key := Entry(value, entries[key].isProtected)];
        if entries[key].isProtected {
          guarded := [key] + Without(guarded, key);
        } else {
          probation := [key] + Without(probation, key);
        }
        return;
      }
      probation := [key] + probation;
      entries := entries[key := Entry(value, false)];
      EvictProbationIfNeeded();
    }

    method Erase(key: K) returns (erased: bool)
      requires Ok()
      modifies this
      ensures Ok() && State() == AfterErase(old(State()), key) && erased == (key in old(entries))
      ensures !erased ==> State() == old(State())
      ensures erased ==> entries == old(entries) - {key}
      ensures key in old(guarded) ==> Removed(old(guarded), key, guarded) && probation == old(probation)
      ensures key in old(probation) ==> Removed(old(probation), key, probation) && guarded == old(guarded)
    {
      EraseKeepsValid(State(), probationCapacity, protectedCapacity, key);
      if key in entries {
        EraseMoves(State(), probationCapacity, protectedCapacity, key);
      }
      erased := key in entries;
      if !erased {
        return;
      }
      if entries[key].isProtected {
        guarded := Without(guarded, key);
      } else {
        probation := Without(probation, key);
      }
      entries := entries - {key};
    }

    method Clear()
      requires Ok()
      modifies this
      ensures Ok() && State() == Empty() && probation == [] && guarded == [] && entries == map[]
    {
      probation, guarded, entries := [], [], map[];
    }
  }

  // ---------------------------------------------------------------- invariants

  /** The values a cache holds. */
  function Values<K, V>(c: Cache<K, V>): map<K, V> {
    map k | k in c.entries :: c.entries[k].value
  }

  lemma CutLast<K(!new)>(s: seq<K>)
    requires NoRepeat(s) && s != []
    ensures var last := s[|s| - 1];
            NoRepeat(s[..|s| - 1]) && last !in s[..|s| - 1] && forall x :: x in s <==> x in s[..|s| - 1] || x == last
  {
    var init, last := s[..|s| - 1], s[|s| - 1];
    assert s == init + [last];
    assert forall i :: 0 <= i < |init| ==> init[i] == s[i];
  }

  lemma PushFront<K(!new)>(s: seq<K>, k: K)
    requires NoRepeat(s) && k !in s
    ensures NoRepeat([k] + s) && forall x :: x in [k] + s <==> x in s || x == k
  {
    var longer := [k] + s;
    forall i, j | 0 <= i < j < |longer|
      ensures longer[i] != longer[j]
    {
      assert longer[j] == s[j - 1];
      assert i > 0 ==> longer[i] == s[i - 1];
    }
  }

  /** Moving a key of a list to its front keeps its members. */
  lemma ToFront<K(!new)>(s: seq<K>, k: K)
    requires NoRepeat(s) && k in s
    ensures NoRepeat([k] + Without(s, k)) && |[k] + Without(s, k)| == |s|
    ensures forall x :: x in [k] + Without(s, k) <==> x in s
  {
    WithoutOne(s, k);
    PushFront(Without(s, k), k);
  }

  lemma EvictKeepsValid<K(!new), V>(c: Cache<K, V>, p: nat, g: nat)
    requires Valid(c, p + 1, g)
    ensures Valid(Evicted(c, p), p, g)
  {
    if |c.probation| > p {
      CutLast(c.probation);
    }
  }

  /** With a place free on probation a demotion evicts nothing. */
  lemma DemoteKeepsValid<K(!new), V>(c: Cache<K, V>, p: nat, g: nat)
    requires Valid(c, p, g + 1) && |c.probation| < p
    ensures Valid(Demoted(c, p, g), p, g) && Values(Demoted(c, p, g)) == Values(c)
  {
    if |c.guarded| > g {
      CutLast(c.guarded);
      PushFront(c.probation, c.guarded[|c.guarded| - 1]);
    }
  }

  lemma PromoteValid<K(!new), V>(c: Cache<K, V>, p: nat, g: nat, k: K)
    requires Valid(c, p, g) && k in c.probation
    ensures var next := Cache(Without(c.probation, k), [k] + c.guarded,
                              c.entries[k := Entry(c.entries[k].value, true)]);
            Valid(next, p, g + 1) && |next.probation| < p && Values(next) == Values(c)
  {
    WithoutOne(c.probation, k);
    PushFront(c.guarded, k);
  }

  lemma GetKeepsValid<K(!new), V>(c: Cache<K, V>, p: nat, g: nat, k: K)
    requires Valid(c, p, g) && g > 0
    ensures Valid(AfterGet(c, p, g, k), p, g)
    ensures Values(AfterGet(c, p, g, k)) == Values(c)
  {
    if k in c.entries {
      if c.entries[k].isProtected {
        ToFront(c.guarded, k);
      } else {
        hide Demoted, Values;
        PromoteValid(c, p, g, k);
        DemoteKeepsValid(Cache(Without(c.probation, k), [k] + c.guarded,
                               c.entries[k := Entry(c.entries[k].value, true)]), p, g);
      }
    }
  }

  lemma PutNewValid<K(!new), V>(c: Cache<K, V>, p: nat, g: nat, k: K, v: V)
    requires Valid(c, p, g) && k !in c.entries
    ensures Valid(Cache([k] + c.probation, c.guarded, c.entries[k := Entry(v, false)]), p + 1, g)
  {
    PushFront(c.probation, k);
  }

  lemma PutKeepsValid<K(!new), V>(c: Cache<K, V>, p: nat, g: nat, k: K, v: V)
    requires Valid(c, p, g) && p > 0
    ensures Valid(AfterPut(c, p, k, v), p, g)
  {
    if k !in c.entries {
      hide Valid, Evicted;
      PutNewValid(c, p, g, k, v);
      EvictKeepsValid(Cache([k] + c.probation, c.guarded, c.entries[k := Entry(v, false)]), p, g);
    } else if c.entries[k].isProtected {
      ToFront(c.guarded, k);
    } else {
      ToFront(c.probation, k);
    }
  }

  lemma EraseKeepsValid<K(!new), V>(c: Cache<K, V>, p: nat, g: nat, k: K)
    requires Valid(c, p, g)
    ensures Valid(AfterErase(c, k), p, g)
  {
    if k in c.entries {
      if c.entries[k].isProtected {
        WithoutOne(c.guarded, k);
      } else {
        WithoutOne(c.probation, k);
      }
    }
  }

  // ---------------------------------------------------------------- runs

  datatype Op<K(==), V> = Get(key: K) | Put(key: K, value: V) | Erase(key: K) | Clear

  function After<K, V>(c: Cache<K, V>, p: nat, g: nat, op: Op<K, V>): Cache<K, V> {
    match op
    case Get(k) => AfterGet(c, p, g, k)
    case Put(k, v) => AfterPut(c, p, k, v)
    case Erase(k) => AfterErase(c, k)
    case Clear => Empty()
  }

  function Run<K, V>(c: Cache<K, V>, p: nat, g: nat, ops: seq<Op<K, V>>): Cache<K, V> {
    if ops == [] then c else After(Run(c, p, g, ops[..|ops| - 1]), p, g, ops[|ops| - 1])
  }

  lemma {:induction false} RunValid<K(!new), V>(c: Cache<K, V>, p: nat, g: nat, ops: seq<Op<K, V>>)
    requires Valid(c, p, g) && p > 0 && g > 0
    ensures Valid(Run(c, p, g, ops), p, g)
  {
    hide Valid, AfterGet, AfterPut, AfterErase;
    if ops != [] {
      RunValid(c, p, g, ops[..|ops| - 1]);
      var before := Run(c, p, g, ops[..|ops| - 1]);
      match ops[|ops| - 1]
      case Get(k) => GetKeepsValid(before, p, g, k);
      case Put(k, v) => PutKeepsValid(before, p, g, k, v);
      case Erase(k) => EraseKeepsValid(before, p, g, k);
      case Clear => EmptyValid<K, V>(p, g);
    }
  }

  function Empty<K, V>(): Cache<K, V> {
    Cache([], [], map[])
  }

  lemma EmptyValid<K(!new), V>(p: nat, g: nat)
    ensures Valid(Empty<K, V>(), p, g)
  {
  }

  /** `get` changes no value and evicts nothing. */
  lemma GetEvictsNothing<K(!new), V>(c: Cache<K, V>, p: nat, g: nat, k: K)
    requires Valid(c, p, g) && g > 0
    ensures Values(AfterGet(c, p, g, k)) == Values(c)
    ensures k in c.entries ==> AfterGet(c, p, g, k).guarded != [] && AfterGet(c, p, g, k).guarded[0] == k
  {
    GetKeepsValid(c, p, g, k);
  }

  /** The value of a key by the history alone: the last put since the last erase or clear. */
  function LastPut<K(==), V>(ops: seq<Op<K, V>>, k: K): Option<V> {
    if ops == [] then None
    else
      var op := ops[|ops| - 1];
      if op.Put? && op.key == k then Some(op.value)
      else if op.Clear? || (op.Erase? && op.key == k) then None
      else LastPut(ops[..|ops| - 1], k)
  }

  /** On every run, a hit returns the last put value. */
  lemma {:induction false} HitIsLastPut<K(!new), V>(p: nat, g: nat, ops: seq<Op<K, V>>, k: K)
    requires p > 0 && g > 0 && k in Run(Empty(), p, g, ops).entries
    ensures LastPut(ops, k) == Some(Run(Empty(), p, g, ops).entries[k].value)
  {
    hide Valid;
    var empty := Empty<K, V>();
    if ops != [] {
      EmptyValid<K, V>(p, g);
      RunValid(empty, p, g, ops[..|ops| - 1]);
      var before := Run(empty, p, g, ops[..|ops| - 1]);
      var after := Run(empty, p, g, ops);
      StepValue(before, p, g, ops[|ops| - 1], k);
      if k in before.entries {
        HitIsLastPut(p, g, ops[..|ops| - 1], k);
      }
    }
  }

  lemma StepValue<K(!new), V>(c: Cache<K, V>, p: nat, g: nat, op: Op<K, V>, k: K)
    requires Valid(c, p, g) && g > 0 && k in After(c, p, g, op).entries
    ensures op.Put? && op.key == k ==> After(c, p, g, op).entries[k].value == op.value
    ensures !(op.Put? && op.key == k) ==> k in c.entries && After(c, p, g, op).entries[k].value == c.entries[k].value
    ensures !op.Clear? && !(op.Erase? && op.key == k)
  {
    match op
    case Get(x) =>
      GetKeepsValid(c, p, g, x);
      assert k in Values(AfterGet(c, p, g, x));
      assert Values(AfterGet(c, p, g, x))[k] == Values(c)[k];
    case Put(x, v) =>
    case Erase(x) =>
    case Clear =>
  }

  /** A run of puts of keys that are not protected. */
  ghost predicate PutsOutside<K, V>(ops: seq<Op<K, V>>, guarded: seq<K>) {
    forall i :: 0 <= i < |ops| ==> ops[i].Put? && ops[i].key !in guarded
  }

  /** A scan of new keys, however long, leaves the protected list and its values as they were. */
  lemma {:induction false} ScanResistant<K(!new), V>(c: Cache<K, V>, p: nat, g: nat, ops: seq<Op<K, V>>)
    requires Valid(c, p, g) && p > 0 && g > 0 && PutsOutside(ops, c.guarded)
    ensures Run(c, p, g, ops).guarded == c.guarded
    ensures forall k :: k in c.guarded ==>
              k in c.entries && k in Run(c, p, g, ops).entries && Run(c, p, g, ops).entries[k] == c.entries[k]
  {
    GuardedHeld(c, p, g);
    hide Valid;
    if ops != [] {
      var init, last := ops[..|ops| - 1], ops[|ops| - 1];
      assert PutsOutside(init, c.guarded) by {
        assert forall i :: 0 <= i < |init| ==> init[i] == ops[i];
      }
      ScanResistant(c, p, g, init);
      RunValid(c, p, g, init);
      var before := Run(c, p, g, init);
      assert last.Put? && last.key !in before.guarded;
      PutOutside(before, p, g, last.key, last.value);
      assert Run(c, p, g, ops) == AfterPut(before, p, last.key, last.value);
    }
  }

  lemma GuardedHeld<K(!new), V>(c: Cache<K, V>, p: nat, g: nat)
    requires Valid(c, p, g)
    ensures forall k :: k in c.guarded ==> k in c.entries
  {
  }

  lemma PutOutside<K(!new), V>(c: Cache<K, V>, p: nat, g: nat, k: K, v: V)
    requires Valid(c, p, g) && p > 0 && k !in c.guarded
    ensures AfterPut(c, p, k, v).guarded == c.guarded
    ensures forall x :: x in c.guarded ==>
              x in AfterPut(c, p, k, v).entries && AfterPut(c, p, k, v).entries[x] == c.entries[x]
  {
    if k !in c.entries && |[k] + c.probation| > p {
      assert ([k] + c.probation)[|c.probation|] !in c.guarded;
    }
  }

  /** Putting a new key evicts at most the oldest key on probation, and only when that list is full. */
  lemma PutEvictsOldest<K(!new), V>(c: Cache<K, V>, p: nat, g: nat, k: K, v: V)
    requires Valid(c, p, g) && p > 0 && k !in c.entries
    ensures AfterPut(c, p, k, v).entries.Keys
         == c.entries.Keys + {k} - if |c.probation| == p then {c.probation[p - 1]} else {}
  {
    if |c.probation| == p {
      assert ([k] + c.probation)[p] == c.probation[p - 1];
    }
  }
}
