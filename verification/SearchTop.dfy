// The ranking of hits and the bounded heap that keeps the best of them.

module SearchTop {
  import opened Common
  import opened Ranking
  import opened SearchHits

  /** isBetter, with an exact comparison of scores. */
  predicate Better(a: Hit, b: Hit) {
    if a.score != b.score then a.score > b.score
    else if a.document.occurredAt != b.document.occurredAt then a.document.occurredAt > b.document.occurredAt
    else a.document.docId > b.document.docId
  }

  /** No two hits are of the same document. */
  ghost predicate OnePerDocument(x: set<Hit>) {
    forall a <- x, b <- x :: a.document.docId == b.document.docId ==> a == b
  }

  lemma OrdersHits(x: set<Hit>)
    requires OnePerDocument(x)
    ensures Orders(x, Better)
  {
  }

  /** `best` are the best of `seen`, as many as fit. */
  ghost predicate IsTop(best: set<Hit>, seen: set<Hit>, capacity: nat) {
    && best <= seen && |best| == Min(|seen|, capacity)
    && forall a, b :: a in best && b in seen && b !in best ==> Better(a, b)
  }

  /** One step of the bounded priority queue, whose top is the worst of what it holds. */
  method Consider(best: set<Hit>, ghost seen: set<Hit>, hit: Hit, capacity: nat) returns (r: set<Hit>)
    requires IsTop(best, seen, capacity) && capacity > 0
    requires hit !in seen && OnePerDocument(seen + {hit})
    ensures IsTop(r, seen + {hit}, capacity)
  {
    ghost var more := seen + {hit};
    OrdersHits(more);
    SubsetSize(best, seen);
    assert |more| == |seen| + 1;
    if |best| < capacity {
      AllFit(best, seen, capacity);
      r := best + {hit};
    } else {
      assert best != {};
      assert Orders(best, Better);
      ghost var last := HasLast(best, Better);
      var top :| top in best && forall x <- best :: x == top || Better(x, top);
      if Better(hit, top) {
        HitEnters(best, seen, hit, top, capacity);
        r := best - {top} + {hit};
      } else {
        HitStaysOut(best, seen, hit, top, capacity);
        r := best;
      }
    }
  }

  /** The worst of a full queue makes room for a better hit. */
  lemma HitEnters(best: set<Hit>, seen: set<Hit>, hit: Hit, top: Hit, capacity: nat)
    requires IsTop(best, seen, capacity) && |best| == capacity && hit !in seen && top in best && Better(hit, top)
    requires OnePerDocument(seen + {hit}) && forall x <- best :: x == top || Better(x, top)
    ensures IsTop(best - {top} + {hit}, seen + {hit}, capacity)
  {
    var r, more := best - {top} + {hit}, seen + {hit};
    OrdersHits(more);
    hide Better, OnePerDocument;
    assert |more| == |seen| + 1 && |r| == |best|;
    forall a, b | a in r && b in more && b !in r
      ensures Better(a, b)
    {
      assert a == hit || Better(a, top);
      assert b == top || Better(top, b);
    }
  }

  lemma HitStaysOut(best: set<Hit>, seen: set<Hit>, hit: Hit, top: Hit, capacity: nat)
    requires IsTop(best, seen, capacity) && |best| == capacity && hit !in seen && top in best && !Better(hit, top)
    requires OnePerDocument(seen + {hit}) && forall x <- best :: x == top || Better(x, top)
    ensures IsTop(best, seen + {hit}, capacity)
  {
    var more := seen + {hit};
    OrdersHits(more);
    hide Better, OnePerDocument;
    assert |more| == |seen| + 1;
    assert Better(top, hit);
    forall a, b | a in best && b in more && b !in best
      ensures Better(a, b)
    {
      if b == hit {
        assert a == top || Better(a, top);
      }
    }
  }

  /** While the queue is not full it holds everything. */
  lemma AllFit(best: set<Hit>, seen: set<Hit>, capacity: nat)
    requires IsTop(best, seen, capacity) && |best| < capacity
    ensures best == seen
  {
    var rest := seen - best;
    assert |seen| == |best| + |rest|;
  }

  /** The slice of a ranking that a page shows. */
  function Slice<T>(s: seq<T>, offset: nat, size: nat): seq<T> {
    if offset >= |s| then [] else s[offset..Min(offset + size, |s|)]
  }

  /** The hits that rank before `h`. */
  ghost function BetterThan(hits: set<Hit>, h: Hit): set<Hit> {
    set g | g in hits && Better(g, h)
  }

  /** A page by ranks: the item in place `j` is the hit with exactly `offset + j` better ones, and there
      are as many items as there are such hits, up to the size of the page. */
  ghost predicate IsPage(items: seq<Hit>, hits: set<Hit>, offset: nat, size: nat) {
    && |items| == Max(0, Min(size, |hits| - offset))
    && forall j :: 0 <= j < |items| ==> items[j] in hits && |BetterThan(hits, items[j])| == offset + j
  }

  lemma SliceAt<T>(s: seq<T>, offset: nat, size: nat)
    ensures |Slice(s, offset, size)| == Max(0, Min(size, |s| - offset))
    ensures forall j :: 0 <= j < |Slice(s, offset, size)| ==> Slice(s, offset, size)[j] == s[offset + j]
  {
  }

  lemma RankOf(hits: set<Hit>, k: nat)
    requires Orders(hits, Better) && k < |hits|
    ensures |BetterThan(hits, Listing(hits, Better)[k])| == k
  {
    hide Better;
    RankInListing(hits, Better, k);
    var h := Listing(hits, Better)[k];
    assert BetterThan(hits, h) == Preceding(hits, Better, h);
  }

  lemma SliceIsPage(hits: set<Hit>, offset: nat, size: nat)
    requires Orders(hits, Better)
    ensures IsPage(Slice(Listing(hits, Better), offset, size), hits, offset, size)
  {
    hide Slice, Better;
    var s, items := Listing(hits, Better), Slice(Listing(hits, Better), offset, size);
    SliceAt(s, offset, size);
    forall j | 0 <= j < |items|
      ensures items[j] in hits && |BetterThan(hits, items[j])| == offset + j
    {
      RankOf(hits, offset + j);
    }
  }

  /** Draining the queue, sorting and cutting gives the page of all that was seen. */
  lemma TopSlice(best: set<Hit>, seen: set<Hit>, offset: nat, size: nat)
    requires IsTop(best, seen, offset + size) && OnePerDocument(seen)
    ensures Orders(best, Better) && Orders(seen, Better)
    ensures Slice(Listing(best, Better), offset, size) == Slice(Listing(seen, Better), offset, size)
    ensures IsPage(Slice(Listing(best, Better), offset, size), seen, offset, size)
  {
    OrdersHits(seen);
    SliceIsPage(seen, offset, size);
    hide IsPage, Better, OnePerDocument;
    TopIsPrefix(seen, best, Better);
    var all, some := Listing(seen, Better), Listing(best, Better);
    assert some == all[..|best|];
    assert |best| == Min(|all|, offset + size);
    if offset < |some| {
      assert some[offset..Min(offset + size, |some|)] == all[offset..Min(offset + size, |all|)];
    }
  }

  /** A hit is on the page exactly when its rank is: nothing is left out and nothing else is there. */
  lemma OnPageIff(items: seq<Hit>, hits: set<Hit>, offset: nat, size: nat, h: Hit)
    requires OnePerDocument(hits) && IsPage(items, hits, offset, size)
    ensures h in items <==> h in hits && offset <= |BetterThan(hits, h)| < offset + size
  {
    hide Better, OnePerDocument, BetterThan;
    OrdersHits(hits);
    var s := Listing(hits, Better);
    if h in hits {
      var k :| 0 <= k < |s| && s[k] == h;
      RankOf(hits, k);
      if offset <= k < offset + size {
        var item := items[k - offset];
        var i :| 0 <= i < |s| && s[i] == item;
        RankOf(hits, i);
      }
    }
  }

  /** Consecutive slices follow each other without gap or repeat. */
  lemma SlicesFollow<T>(s: seq<T>, offset: nat, size: nat, next: nat)
    ensures Slice(s, offset, size) + Slice(s, offset + size, next) == Slice(s, offset, size + next)
  {
  }
}
