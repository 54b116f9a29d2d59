// IndexSnapshot::findDocument and the query cache: caching does not change what a search returns.

module QueryCache {
  import opened Common
  import opened Ranking
  import opened SearchEngine
  import opened SearchHits
  import opened SearchIndex
  import opened SearchPages
  import opened SearchTop
  import opened SegmentPostings
  import opened SegmentRecords
  import opened SegmentTables
  import opened Sorting
  import opened Terms

  // ---------------------------------------------------------------- IndexSnapshot

  predicate BatchesIncrease(segments: seq<Segment>) {
    && (forall s :: 0 <= s < |segments| ==> segments[s].batchId != 0)
    && (forall s :: 0 < s < |segments| ==> segments[s - 1].batchId < segments[s].batchId)
  }

  function Documents(segments: seq<Segment>): nat {
    if segments == [] then 0
    else Documents(segments[..|segments| - 1]) + |segments[|segments| - 1].documents|
  }

  /** The documents of all Segments together. */
  lemma {:induction false} DocumentsAdd(a: seq<Segment>, b: seq<Segment>, s: Segment)
    ensures Documents([s]) == |s.documents| && Documents(a + b) == Documents(a) + Documents(b)
  {
    assert [s][..0] == [];
    if b == [] {
      assert a + b == a;
    } else {
      var k := |b| - 1;
      DocumentsAdd(a, b[..k], s);
      assert (a + b)[..|a + b| - 1] == a + b[..k];
    }
  }

  /** The constructor: None is the exception about batch ids. */
  method NewSnapshot(segments: seq<Segment>) returns (ok: bool, version: nat, documentCount: nat)
    ensures ok == BatchesIncrease(segments)
    ensures ok <==> && (forall s :: 0 <= s < |segments| ==> segments[s].batchId > 0)
                    && (forall s :: 0 < s < |segments| ==> segments[s - 1].batchId < segments[s].batchId)
    ensures ok ==> version == Version(segments) && documentCount == Documents(segments)
    ensures ok ==> version == if segments == [] then 0 else segments[|segments| - 1].batchId
  {
    var previous := 0;
    ok, version, documentCount := true, 0, 0;
    var s := 0;
    while s < |segments|
      invariant s <= |segments| && BatchesIncrease(segments[..s])
      invariant previous == version == Version(segments[..s]) && documentCount == Documents(segments[..s])
    {
      assert segments[..s + 1][..s] == segments[..s];
      if segments[s].batchId <= previous {
        return false, version, documentCount;
      }
      previous := segments[s].batchId;
      version := segments[s].batchId;
      documentCount := documentCount + |segments[s].documents|;
      s := s + 1;
    }
    assert segments[..s] == segments;
  }

  /** Some document of the snapshot has this id. */
  ghost predicate HasDocument(snapshot: Snapshot, docId: nat, s: nat, i: nat) {
    s < |snapshot| && i < |snapshot[s].documents| && snapshot[s].documents[i].docId == docId
  }

  /** The document there, with its file. */
  ghost predicate FoundAt(snapshot: Snapshot, docId: nat, s: nat, i: nat, d: DocumentRecord, f: FileRecord) {
    && HasDocument(snapshot, docId, s, i) && d == snapshot[s].documents[i]
    && d.fileOrdinal < |snapshot[s].files| && f == snapshot[s].files[d.fileOrdinal]
  }

  /** findDocument: the early exits of the loop agree with a search over all documents, for every id. */
  method FindDocument(snapshot: Snapshot, ghost corpus: Corpus, docId: U64)
    returns (r: Option<(DocumentRecord, FileRecord)>)
    requires SnapshotOk(snapshot, corpus)
    ensures r.Some? <==> exists s: nat, i: nat :: HasDocument(snapshot, docId, s, i)
    ensures r.Some? ==> exists s: nat, i: nat :: FoundAt(snapshot, docId, s, i, r.value.0, r.value.1)
  {
    hide SnapshotOk;
    var batchId := docId / 0x1_0000_0000;
    var localId := docId % 0x1_0000_0000;
    var s := 0;
    while s < |snapshot|
      invariant s <= |snapshot|
      invariant forall r: nat :: r < s ==> snapshot[r].batchId < batchId
    {
      if snapshot[s].batchId < batchId {
        s := s + 1;
        continue;
      }
      OnlyHere(snapshot, corpus, docId, s);
      if snapshot[s].batchId > batchId || localId >= |snapshot[s].documents| {
        return None;
      }
      var candidate := snapshot[s].documents[localId];
      Located(snapshot, corpus, s, localId);
      if candidate.docId != docId || candidate.fileOrdinal >= |snapshot[s].files| {
        return None;
      }
      assert FoundAt(snapshot, docId, s, localId, candidate, snapshot[s].files[candidate.fileOrdinal]);
      return Some((candidate, snapshot[s].files[candidate.fileOrdinal]));
    }
    OnlyHere(snapshot, corpus, docId, s);
    r := None;
  }

  /** What loading guarantees of one document. */
  lemma Located(snapshot: Snapshot, corpus: Corpus, s: nat, i: nat)
    requires SnapshotOk(snapshot, corpus) && s < |snapshot| && i < |snapshot[s].documents|
    ensures var d := snapshot[s].documents[i];
            && d.docId == snapshot[s].batchId * 0x1_0000_0000 + i && d.fileOrdinal < |snapshot[s].files|
            && i < 0x1_0000_0000
  {
    hide TermsAccepted, PostingsAccepted, Unflatten, Inverted, IsLookup, Tokens;
    assert IsDocumentAt(snapshot[s], corpus[s], i);
  }

  /** An id can only be in the Segment of its batch, at its local id. */
  lemma OnlyHere(snapshot: Snapshot, corpus: Corpus, docId: U64, s: nat)
    requires SnapshotOk(snapshot, corpus) && s <= |snapshot|
    requires forall r: nat :: r < s ==> snapshot[r].batchId < docId / 0x1_0000_0000
    requires s < |snapshot| ==> snapshot[s].batchId >= docId / 0x1_0000_0000
    ensures forall r: nat, i: nat :: HasDocument(snapshot, docId, r, i) ==>
              r == s && s < |snapshot| && snapshot[s].batchId == docId / 0x1_0000_0000 && i == docId % 0x1_0000_0000
  {
    hide Indexes;
    forall r: nat, i: nat | HasDocument(snapshot, docId, r, i)
      ensures r == s && s < |snapshot| && snapshot[s].batchId == docId / 0x1_0000_0000 && i == docId % 0x1_0000_0000
    {
      Located(snapshot, corpus, r, i);
      assert docId / 0x1_0000_0000 == snapshot[r].batchId && docId % 0x1_0000_0000 == i;
    }
  }

  // ---------------------------------------------------------------- key

  predicate NotAfter(a: Bytes, b: Bytes) {
    !Less(b, a)
  }

  lemma NotAfterOrders()
    ensures TotalPreorder(NotAfter)
    ensures forall a, b :: NotAfter(a, b) && NotAfter(b, a) ==> a == b
  {
    hide Less;
    forall a, b
      ensures NotAfter(a, b) || NotAfter(b, a)
      ensures NotAfter(a, b) && NotAfter(b, a) ==> a == b
    {
      if Less(a, b) && Less(b, a) {
        LessTransitive(a, b, a);
        LessIrreflexive(a);
      }
      if a != b {
        LessTotal(a, b);
      }
    }
    forall a, b, c | NotAfter(a, b) && NotAfter(b, c)
      ensures NotAfter(a, c)
    {
      if Less(c, a) {
        if b == c || a == b {
          LessIrreflexive(a);
        } else {
          LessTotal(b, c);
          LessTransitive(b, c, a);
        }
      }
    }
  }

  /** The key: the version and the digest of the normalised query, which is the normalised query here. */
  datatype CacheKey = CacheKey(version: nat, normalized: SearchQuery)

  ghost predicate IsKey(k: CacheKey, q: SearchQuery, version: nat) {
    && k.version == version
    && Lists(k.normalized.keywords, QueryTerms(q.keywords), Less)
    && Ordered(k.normalized.levels, NotAfter) && multiset(k.normalized.levels) == multiset(q.levels)
    && k.normalized == q.(keywords := k.normalized.keywords, levels := k.normalized.levels)
  }

  /** QueryCache::key */
  method Key(q: SearchQuery, version: nat) returns (k: CacheKey)
    ensures IsKey(k, q, version)
  {
    hide Less, QueryTerms;
    var keywords := NormalizedTerms(q.keywords);
    NotAfterOrders();
    ghost var example := CanSort(q.levels, NotAfter);
    var levels :| (forall i, j :: 0 <= i < j < |levels| ==> NotAfter(levels[i], levels[j]))
        && multiset(levels) == multiset(q.levels);
    k := CacheKey(version, q.(keywords := keywords, levels := levels));
  }

  /** Equal queries, up to the order and repetition of terms and the order of levels, share their key;
      queries that share a key are equal in that sense. */
  ghost predicate SameQuery(q: SearchQuery, p: SearchQuery) {
    && QueryTerms(q.keywords) == QueryTerms(p.keywords) && multiset(q.levels) == multiset(p.levels)
    && p == q.(keywords := p.keywords, levels := p.levels)
  }

  lemma KeysAgree(q: SearchQuery, p: SearchQuery, v: nat, w: nat, k: CacheKey, l: CacheKey)
    requires IsKey(k, q, v) && IsKey(l, p, w)
    ensures k == l <==> v == w && SameQuery(q, p)
  {
    hide Less, QueryTerms, NotAfter;
    if v == w && SameQuery(q, p) {
      OrdersTerms(QueryTerms(q.keywords));
      ListingUnique(k.normalized.keywords, l.normalized.keywords, QueryTerms(q.keywords), Less);
      NotAfterOrders();
      SortUnique(k.normalized.levels, l.normalized.levels, NotAfter);
    }
    if k == l {
      assert forall t :: t in QueryTerms(q.keywords) <==> t in k.normalized.keywords;
      assert forall t :: t in QueryTerms(p.keywords) <==> t in k.normalized.keywords;
      assert QueryTerms(q.keywords) == QueryTerms(p.keywords);
      assert q.(keywords := [], levels := []) == k.normalized.(keywords := [], levels := []);
      assert p.(keywords := [], levels := []) == k.normalized.(keywords := [], levels := []);
    }
  }

  lemma SameFilters(q: SearchQuery, p: SearchQuery, d: DocumentRecord)
    requires SameQuery(q, p)
    ensures MatchesFilters(d, q) == MatchesFilters(d, p) && BusinessWeight(d, q) == BusinessWeight(d, p)
  {
    hide QueryTerms;
    assert d.level in q.levels <==> d.level in multiset(q.levels);
    assert d.level in p.levels <==> d.level in multiset(p.levels);
    assert |q.levels| == |multiset(q.levels)| && |p.levels| == |multiset(p.levels)|;
  }

  lemma {:induction false} SameHitsBefore(snapshot: Snapshot, corpus: Corpus, q: SearchQuery, p: SearchQuery,
                                          idf: (nat, nat) -> real, s: nat)
    requires |snapshot| == |corpus| && s <= |snapshot| && SameQuery(q, p)
    ensures HitsBefore(snapshot, corpus, q, idf, s) == HitsBefore(snapshot, corpus, p, idf, s)
  {
    hide QueryTerms, SumOver, MatchesFilters, BusinessWeight, SameQuery;
    if s > 0 {
      var last := s - 1;
      SameHitsBefore(snapshot, corpus, q, p, idf, last);
      var n := |snapshot[last].documents|;
      SameTerms(q, p);
      forall i: nat
        ensures IsHit(snapshot, corpus, p, last, i) == IsHit(snapshot, corpus, q, last, i)
      {
        if i < n {
          SameFilters(q, p, snapshot[last].documents[i]);
        }
      }
      forall i: nat | IsHit(snapshot, corpus, q, last, i)
        ensures HitAt(snapshot, corpus, p, idf, last, i) == HitAt(snapshot, corpus, q, idf, last, i)
      {
        SameFilters(q, p, snapshot[last].documents[i]);
      }
      assert HitsIn(snapshot, corpus, p, idf, last, n) == HitsIn(snapshot, corpus, q, idf, last, n);
    }
  }

  lemma SameTerms(q: SearchQuery, p: SearchQuery)
    requires SameQuery(q, p)
    ensures QueryTerms(q.keywords) == QueryTerms(p.keywords) && q.offset == p.offset && q.pageSize == p.pageSize
  {
  }

  /** Queries with the same key have the same page, on every snapshot. */
  lemma SameKeySamePage(snapshot: Snapshot, corpus: Corpus, q: SearchQuery, p: SearchQuery, idf: (nat, nat) -> real,
                        k: CacheKey, v: nat)
    requires SnapshotOk(snapshot, corpus) && IsKey(k, q, v) && IsKey(k, p, v)
    ensures PageAllowed(q) == PageAllowed(p)
    ensures PageOf(snapshot, corpus, q, idf) == PageOf(snapshot, corpus, p, idf)
  {
    hide *;
    KeysAgree(q, p, v, v, k, k);
    SnapshotLength(snapshot, corpus);
    SameHitsBefore(snapshot, corpus, q, p, idf, |snapshot|);
    SameTerms(q, p);
    PageAllowedIs(q);
    PageAllowedIs(p);
    PageIs(snapshot, corpus, q, idf);
    PageIs(snapshot, corpus, p, idf);
  }

  // ---------------------------------------------------------------- serialize and restore

  /** The JSON value of a cached page. */
  datatype CachedPage = CachedPage(format: nat, version: nat, totalHits: nat, docIds: seq<U64>, scores: seq<real>)

  function Serialized(page: SearchPage): CachedPage {
    CachedPage(1, page.version, page.totalHits,
               seq(|page.items|, i requires 0 <= i < |page.items| => page.items[i].document.docId),
               seq(|page.items|, i requires 0 <= i < |page.items| => page.items[i].score))
  }

  method Serialize(page: SearchPage) returns (r: CachedPage)
    ensures r == Serialized(page)
  {
    var ids: seq<U64>, scores: seq<real> := [], [];
    var i := 0;
    while i < |page.items|
      invariant i <= |page.items| && |ids| == |scores| == i
      invariant forall k :: 0 <= k < i ==> ids[k] == page.items[k].document.docId && scores[k] == page.items[k].score
    {
      ids := ids + [page.items[i].document.docId];
      scores := scores + [page.items[i].score];
      i := i + 1;
    }
    r := CachedPage(1, page.version, page.totalHits, ids, scores);
  }

  /** The documents of a page are documents of the snapshot. */
  ghost predicate Present(snapshot: Snapshot, d: DocumentRecord) {
    exists s: nat, i: nat :: HasDocument(snapshot, d.docId, s, i) && d == snapshot[s].documents[i]
  }

  /** What restoring a value gives: the page it was serialized from, if that is a page of this
      snapshot of at most 200 items. */
  ghost predicate Restores(snapshot: Snapshot, value: CachedPage, page: SearchPage) {
    && value == Serialized(page) && page.version == Version(snapshot) && |page.items| <= 200
    && forall i :: 0 <= i < |page.items| ==> Present(snapshot, page.items[i].document)
  }

  lemma OneDocument(snapshot: Snapshot, corpus: Corpus, d: DocumentRecord, e: DocumentRecord)
    requires SnapshotOk(snapshot, corpus) && Present(snapshot, d) && Present(snapshot, e) && d.docId == e.docId
    ensures d == e
  {
    hide SnapshotOk;
    var s: nat, i: nat :| HasDocument(snapshot, d.docId, s, i) && d == snapshot[s].documents[i];
    var r: nat, j: nat :| HasDocument(snapshot, e.docId, r, j) && e == snapshot[r].documents[j];
    DocIdUnique(snapshot, corpus, s, i, r, j);
  }

  /** A value restores to one page at most. */
  lemma RestoresOnce(snapshot: Snapshot, corpus: Corpus, value: CachedPage, p: SearchPage, q: SearchPage)
    requires SnapshotOk(snapshot, corpus) && Restores(snapshot, value, p) && Restores(snapshot, value, q)
    ensures p == q
  {
    hide SnapshotOk, Present;
    assert |value.docIds| == |p.items| == |q.items|;
    forall i | 0 <= i < |p.items|
      ensures p.items[i] == q.items[i]
    {
      assert value.docIds[i] == p.items[i].document.docId == q.items[i].document.docId;
      assert value.scores[i] == p.items[i].score == q.items[i].score;
      OneDocument(snapshot, corpus, p.items[i].document, q.items[i].document);
    }
  }

  /** QueryCache::restore with SearchEngine::restore: false is None. */
  method Restore(snapshot: Snapshot, ghost corpus: Corpus, value: CachedPage) returns (r: Option<SearchPage>)
    requires SnapshotOk(snapshot, corpus)
    ensures r.Some? ==> Restores(snapshot, value, r.value)
    ensures r == None ==> forall page: SearchPage :: !Restores(snapshot, value, page)
  {
    hide SnapshotOk, Present, HasDocument;
    if value.format != 1 || |value.docIds| != |value.scores| || |value.docIds| > 200 {
      return None;
    }
    if Version(snapshot) != value.version {
      return None;
    }
    var items: seq<Hit> := [];
    while |items| < |value.docIds|
      invariant |items| <= |value.docIds|
      invariant forall k :: 0 <= k < |items| ==> IsItem(snapshot, value, k, items[k])
    {
      var i := |items|;
      var found := FindDocument(snapshot, corpus, value.docIds[i]);
      if found == None {
        NotPresent(snapshot, value, i);
        return None;
      }
      FoundPresent(snapshot, value.docIds[i], found.value.0, found.value.1);
      var item := Hit(found.value.0, value.scores[i]);
      assert IsItem(snapshot, value, i, item);
      items := items + [item];
    }
    r := Some(SearchPage(value.version, value.totalHits, items));
    Restored(snapshot, value, r.value);
  }

  ghost predicate IsItem(snapshot: Snapshot, value: CachedPage, k: nat, item: Hit) {
    && k < |value.docIds| && k < |value.scores|
    && item.document.docId == value.docIds[k] && item.score == value.scores[k]
    && Present(snapshot, item.document)
  }

  lemma FoundPresent(snapshot: Snapshot, docId: nat, d: DocumentRecord, f: FileRecord)
    requires exists s: nat, i: nat :: FoundAt(snapshot, docId, s, i, d, f)
    ensures Present(snapshot, d) && d.docId == docId
  {
  }

  lemma NotPresent(snapshot: Snapshot, value: CachedPage, i: nat)
    requires i < |value.docIds| && !exists s: nat, j: nat :: HasDocument(snapshot, value.docIds[i], s, j)
    ensures forall page: SearchPage :: !Restores(snapshot, value, page)
  {
    forall page: SearchPage | value == Serialized(page)
      ensures !Restores(snapshot, value, page)
    {
      assert value.docIds[i] == page.items[i].document.docId;
      assert !Present(snapshot, page.items[i].document);
    }
  }

  lemma Restored(snapshot: Snapshot, value: CachedPage, page: SearchPage)
    requires value.format == 1 && |value.docIds| == |value.scores| == |page.items| <= 200
    requires page.version == value.version == Version(snapshot) && page.totalHits == value.totalHits
    requires forall k :: 0 <= k < |page.items| ==> IsItem(snapshot, value, k, page.items[k])
    ensures Restores(snapshot, value, page)
  {
    hide Present;
    forall k | 0 <= k < |page.items|
      ensures value.docIds[k] == Serialized(page).docIds[k] && value.scores[k] == Serialized(page).scores[k]
      ensures Present(snapshot, page.items[k].document)
    {
      assert IsItem(snapshot, value, k, page.items[k]);
    }
    assert value.docIds == Serialized(page).docIds && value.scores == Serialized(page).scores;
  }

  /** The items of a search page are documents of the snapshot. */
  lemma PagePresent(snapshot: Snapshot, corpus: Corpus, q: SearchQuery, idf: (nat, nat) -> real)
    requires SnapshotOk(snapshot, corpus)
    ensures forall i :: 0 <= i < |PageOf(snapshot, corpus, q, idf).items| ==>
              Present(snapshot, PageOf(snapshot, corpus, q, idf).items[i].document)
  {
    hide SnapshotOk, AllHits, Present, PageOf, Better;
    SnapshotLength(snapshot, corpus);
    PageIs(snapshot, corpus, q, idf);
    var all := AllHits(snapshot, corpus, q, idf);
    SliceMembers(Listing(all, Better), q.offset, q.pageSize);
    forall h | h in all
      ensures Present(snapshot, h.document)
    {
      HitPresent(snapshot, corpus, q, idf, h);
    }
  }

  lemma SliceMembers<T>(s: seq<T>, offset: nat, size: nat)
    ensures forall i :: 0 <= i < |Slice(s, offset, size)| ==> Slice(s, offset, size)[i] in s
  {
  }

  lemma HitPresent(snapshot: Snapshot, corpus: Corpus, q: SearchQuery, idf: (nat, nat) -> real, h: Hit)
    requires |snapshot| == |corpus| && h in AllHits(snapshot, corpus, q, idf)
    ensures Present(snapshot, h.document)
  {
    hide QueryTerms, MatchesFilters, ScoreAt, AllHits;
    AllHitsAre(snapshot, corpus, q, idf, h);
    var s: nat, i: nat :| IsHit(snapshot, corpus, q, s, i) && h == HitAt(snapshot, corpus, q, idf, s, i);
    HitInRange(snapshot, corpus, q, s, i);
    HitDocument(snapshot, corpus, q, idf, s, i);
    assert HasDocument(snapshot, h.document.docId, s, i);
  }

  /** validPagination: the sum is one of 32-bit words. */
  predicate ValidPagination(offset: U32, pageSize: U32) {
    pageSize != 0 && pageSize <= 200 && (offset + pageSize) % 0x1_0000_0000 <= 1000
  }

  /** What it lets through is allowed by the search if and only if that sum did not wrap around. */
  lemma PaginationWraps(q: SearchQuery)
    requires q.offset < 0x1_0000_0000 && q.pageSize < 0x1_0000_0000 && ValidPagination(q.offset, q.pageSize)
    ensures PageAllowed(q) <==> q.offset + q.pageSize < 0x1_0000_0000
  {
    if q.offset + q.pageSize >= 0x1_0000_0000 {
      assert (q.offset + q.pageSize) % 0x1_0000_0000 == q.offset + q.pageSize - 0x1_0000_0000;
    }
  }

  /** The last offset with a page of one passes, and the search refuses it. */
  lemma LastOffsetWraps()
    ensures exists q: SearchQuery ::
              q.offset < 0x1_0000_0000 && q.pageSize < 0x1_0000_0000 && ValidPagination(q.offset, q.pageSize)
              && !PageAllowed(q)
  {
    var q := SearchQuery([], [], [], [], [], [], [], [], [], false, 0, 0, false, 0xFFFF_FFFF, 1);
    assert ValidPagination(q.offset, q.pageSize) && !PageAllowed(q);
  }

  /** The pages that get stored: those of queries that pass both the entry point and the search. */
  predicate Storable(q: SearchQuery) {
    PageAllowed(q) && q.pageSize <= 200
  }

  /** The cache is transparent on a fixed snapshot: what was stored for one query restores, for any
      query with the same key, to exactly the page that a search would return. */
  lemma CacheIsTransparent(snapshot: Snapshot, corpus: Corpus, q: SearchQuery, p: SearchQuery,
                           idf: (nat, nat) -> real, k: CacheKey, page: SearchPage)
    requires SnapshotOk(snapshot, corpus) && IsKey(k, q, Version(snapshot)) && IsKey(k, p, Version(snapshot))
    requires Storable(q)
    ensures PageAllowed(p)
    ensures Restores(snapshot, Serialized(PageOf(snapshot, corpus, q, idf)), page)
            <==> page == PageOf(snapshot, corpus, p, idf)
  {
    hide SnapshotOk, Present, Serialized, IsKey, AllHits, Listing, PageOf;
    SameKeySamePage(snapshot, corpus, q, p, idf, k, Version(snapshot));
    var was := PageOf(snapshot, corpus, q, idf);
    PagePresent(snapshot, corpus, q, idf);
    PageSize(snapshot, corpus, q, idf);
    assert Restores(snapshot, Serialized(was), was);
    if Restores(snapshot, Serialized(was), page) {
      RestoresOnce(snapshot, corpus, Serialized(was), page, was);
    }
  }

  lemma PageSize(snapshot: Snapshot, corpus: Corpus, q: SearchQuery, idf: (nat, nat) -> real)
    requires SnapshotOk(snapshot, corpus)
    ensures |PageOf(snapshot, corpus, q, idf).items| <= q.pageSize
    ensures PageOf(snapshot, corpus, q, idf).version == Version(snapshot)
  {
    hide SnapshotOk, AllHits, FullRanking;
  }
}
