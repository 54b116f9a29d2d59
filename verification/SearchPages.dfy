// The page a search returns, and how pages fit together.

module SearchPages {
  import opened Common
  import opened Ranking
  import opened SearchEngine
  import opened SearchHits
  import opened SearchIndex
  import opened SearchTop
  import opened SegmentPostings
  import opened SegmentRecords
  import opened Terms

  /** A document is a hit exactly when it is a candidate that passes the filters. */
  lemma HitIsCandidate(snapshot: Snapshot, corpus: Corpus, q: SearchQuery, s: nat, names: seq<Term>, i: nat)
    requires SnapshotOk(snapshot, corpus) && s < |snapshot|
    requires forall t :: t in names <==> t in QueryTerms(q.keywords)
    ensures IsHit(snapshot, corpus, q, s, i)
       <==> HoldsAll(corpus[s], names, i) && MatchesFilters(snapshot[s].documents[i], q)
  {
    hide QueryTerms, Tokens, MatchesFilters, Indexes;
    SameLength(snapshot, corpus);
  }

  /** A Segment without one of the terms has no hits. */
  lemma MissingTerm(snapshot: Snapshot, corpus: Corpus, q: SearchQuery, idf: (nat, nat) -> real, s: nat, t: Term)
    requires SnapshotOk(snapshot, corpus) && s < |snapshot|
    requires t in QueryTerms(q.keywords) && Holders(corpus[s], t) == {}
    ensures HitsBefore(snapshot, corpus, q, idf, s + 1) == HitsBefore(snapshot, corpus, q, idf, s)
  {
    hide QueryTerms, Tokens, MatchesFilters, Indexes, HitAt;
    SameLength(snapshot, corpus);
    forall i: nat
      ensures !IsHit(snapshot, corpus, q, s, i)
    {
      assert i !in Holders(corpus[s], t);
    }
    assert HitsIn(snapshot, corpus, q, idf, s, |snapshot[s].documents|) == {};
  }

  /** Where the next candidate is. */
  function NextAt(candidates: seq<nat>, k: nat, end: nat): nat {
    if k < |candidates| then candidates[k] else end
  }

  lemma BetweenCandidates(snapshot: Snapshot, corpus: Corpus, q: SearchQuery, idf: (nat, nat) -> real, s: nat,
                          names: seq<Term>, candidates: seq<nat>, k: nat, from: nat)
    requires SnapshotOk(snapshot, corpus) && s < |snapshot|
    requires forall t :: t in names <==> t in QueryTerms(q.keywords)
    requires Ascending(candidates) && forall d :: d in candidates <==> HoldsAll(corpus[s], names, d)
    requires k <= |candidates| && (k == 0 ==> from == 0) && (k > 0 ==> from == candidates[k - 1] + 1)
    ensures from <= NextAt(candidates, k, |corpus[s]|)
    ensures SeenHits(snapshot, corpus, q, idf, s, NextAt(candidates, k, |corpus[s]|))
         == SeenHits(snapshot, corpus, q, idf, s, from)
  {
    hide QueryTerms, MatchesFilters, SeenHits, IsHit, Indexes;
    SameLength(snapshot, corpus);
    var to := NextAt(candidates, k, |corpus[s]|);
    if k > 0 {
      assert HoldsAll(corpus[s], names, candidates[k - 1]);
    }
    forall i: nat | from <= i < to
      ensures !IsHit(snapshot, corpus, q, s, i)
    {
      assert i !in candidates;
      HitIsCandidate(snapshot, corpus, q, s, names, i);
    }
    NoHitsBetween(snapshot, corpus, q, idf, s, from, to);
  }

  /** One candidate is filtered, scored and offered to the queue. */
  method SearchCandidate(snapshot: Snapshot, ghost corpus: Corpus, q: SearchQuery, s: nat, i: nat,
                         records: seq<TermRecord>, df: map<Term, nat>, documentCount: nat, averageLength: real,
                         idf: (nat, nat) -> real, best: set<Hit>, total: nat, capacity: nat)
    returns (r: set<Hit>, hits: nat)
    requires SnapshotOk(snapshot, corpus) && s < |snapshot| && capacity > 0
    requires DescribeAll(snapshot[s], records, corpus[s]) && Distinct(Names(records))
    requires forall t :: t in Names(records) <==> t in QueryTerms(q.keywords)
    requires HoldsAll(corpus[s], Names(records), i) && i < |snapshot[s].documents|
    requires StatisticsOf(corpus, QueryTerms(q.keywords), df, documentCount, averageLength)
    requires IsTop(best, SeenHits(snapshot, corpus, q, idf, s, i), capacity)
    requires total == |SeenHits(snapshot, corpus, q, idf, s, i)|
    ensures IsTop(r, SeenHits(snapshot, corpus, q, idf, s, i + 1), capacity)
    ensures hits == |SeenHits(snapshot, corpus, q, idf, s, i + 1)|
  {
    hide *;
    SameLength(snapshot, corpus);
    HitIsCandidate(snapshot, corpus, q, s, Names(records), i);
    var document := snapshot[s].documents[i];
    r, hits := best, total;
    if MatchesFilters(document, q) {
      CandidateInRange(corpus, s, records, i);
      var score := Score(snapshot, corpus, q, s, i, records, df, documentCount, averageLength, idf);
      var hit := Hit(document, score);
      HitIs(snapshot, corpus, q, idf, s, i);
      ghost var seen := SeenHits(snapshot, corpus, q, idf, s, i);
      OneHitMore(snapshot, corpus, q, idf, s, i);
      SeenFresh(snapshot, corpus, q, idf, s, i, i);
      SeenDistinct(snapshot, corpus, q, idf, s, i + 1);
      r := Consider(best, seen, hit, capacity);
      hits := total + 1;
    } else {
      OneSkipped(snapshot, corpus, q, idf, s, i);
    }
  }

  lemma CandidateInRange(corpus: Corpus, s: nat, records: seq<TermRecord>, i: nat)
    requires s < |corpus| && HoldsAll(corpus[s], Names(records), i)
    ensures i < |corpus[s]|
  {
  }

  lemma HitIs(snapshot: Snapshot, corpus: Corpus, q: SearchQuery, idf: (nat, nat) -> real, s: nat, i: nat)
    requires s < |snapshot| && s < |corpus| && i < |corpus[s]| && i < |snapshot[s].documents|
    ensures HitAt(snapshot, corpus, q, idf, s, i)
         == Hit(snapshot[s].documents[i], ScoreAt(snapshot, corpus, q, idf, s, i))
  {
  }

  lemma OneSkipped(snapshot: Snapshot, corpus: Corpus, q: SearchQuery, idf: (nat, nat) -> real, s: nat, i: nat)
    requires s < |snapshot| && s < |corpus| && !IsHit(snapshot, corpus, q, s, i)
    ensures SeenHits(snapshot, corpus, q, idf, s, i + 1) == SeenHits(snapshot, corpus, q, idf, s, i)
  {
    hide IsHit, SeenHits;
    NoHitsBetween(snapshot, corpus, q, idf, s, i, i + 1);
  }

  lemma SeenDistinct(snapshot: Snapshot, corpus: Corpus, q: SearchQuery, idf: (nat, nat) -> real, s: nat, n: nat)
    requires SnapshotOk(snapshot, corpus) && s < |snapshot| && s < |corpus|
    ensures OnePerDocument(SeenHits(snapshot, corpus, q, idf, s, n))
  {
    hide SeenHits, SnapshotOk;
    var seen := SeenHits(snapshot, corpus, q, idf, s, n);
    forall a <- seen, b <- seen | a.document.docId == b.document.docId
      ensures a == b
    {
      SeenOnePerDocument(snapshot, corpus, q, idf, s, n, a, b);
    }
  }

  lemma SeenWhole(snapshot: Snapshot, corpus: Corpus, q: SearchQuery, idf: (nat, nat) -> real, s: nat)
    requires s < |snapshot| && s < |corpus| && |snapshot[s].documents| == |corpus[s]|
    ensures SeenHits(snapshot, corpus, q, idf, s, 0) == HitsBefore(snapshot, corpus, q, idf, s)
    ensures SeenHits(snapshot, corpus, q, idf, s, |corpus[s]|) == HitsBefore(snapshot, corpus, q, idf, s + 1)
  {
    hide IsHit, HitAt;
  }

  /** The body of the loop over the Segments. */
  method SearchSegment(snapshot: Snapshot, ghost corpus: Corpus, q: SearchQuery, s: nat, terms: seq<Term>,
                       df: map<Term, nat>, documentCount: nat, averageLength: real,
                       idf: (nat, nat) -> real, best: set<Hit>, total: nat, capacity: nat)
    returns (r: set<Hit>, hits: nat)
    requires SnapshotOk(snapshot, corpus) && s < |snapshot| && s < |corpus| && capacity > 0
    requires Distinct(terms) && forall t :: t in terms <==> t in QueryTerms(q.keywords)
    requires StatisticsOf(corpus, QueryTerms(q.keywords), df, documentCount, averageLength)
    requires IsTop(best, HitsBefore(snapshot, corpus, q, idf, s), capacity)
    requires total == |HitsBefore(snapshot, corpus, q, idf, s)|
    ensures IsTop(r, HitsBefore(snapshot, corpus, q, idf, s + 1), capacity)
    ensures hits == |HitsBefore(snapshot, corpus, q, idf, s + 1)|
  {
    hide *;
    SameLength(snapshot, corpus);
    SnapshotIndexes(snapshot, corpus, s);
    r, hits := best, total;
    var records := SegmentTerms(snapshot[s], corpus[s], terms);
    if records == None {
      ghost var t :| t in terms && Holders(corpus[s], t) == {};
      MissingTerm(snapshot, corpus, q, idf, s, t);
      return;
    }
    var sorted := SortByFrequency(records.value);
    SortedRecords(snapshot[s], records.value, sorted, corpus[s]);
    var candidates := Candidates(snapshot[s], sorted, corpus[s]);
    ghost var names := Names(sorted);
    SeenWhole(snapshot, corpus, q, idf, s);
    BetweenCandidates(snapshot, corpus, q, idf, s, names, candidates, 0, 0);
    var k := 0;
    while k < |candidates|
      invariant k <= |candidates|
      invariant IsTop(r, SeenHits(snapshot, corpus, q, idf, s, NextAt(candidates, k, |corpus[s]|)), capacity)
      invariant hits == |SeenHits(snapshot, corpus, q, idf, s, NextAt(candidates, k, |corpus[s]|))|
    {
      NextIs(candidates, k, |corpus[s]|);
      assert candidates[k] in candidates;
      CandidateInRange(corpus, s, sorted, candidates[k]);
      r, hits := SearchCandidate(snapshot, corpus, q, s, candidates[k], sorted, df, documentCount, averageLength, idf,
                                 r, hits, capacity);
      BetweenCandidates(snapshot, corpus, q, idf, s, names, candidates, k + 1, candidates[k] + 1);
      k := k + 1;
    }
    NextIs(candidates, k, |corpus[s]|);
  }

  lemma NextIs(candidates: seq<nat>, k: nat, end: nat)
    ensures NextAt(candidates, k, end) == if k < |candidates| then candidates[k] else end
  {
  }

  lemma SnapshotIndexes(snapshot: Snapshot, corpus: Corpus, s: nat)
    requires SnapshotOk(snapshot, corpus) && s < |snapshot|
    ensures |snapshot| == |corpus| && Indexes(snapshot[s], corpus[s])
  {
  }

  // ---------------------------------------------------------------- the search

  /** The full ranking of the naive scan. */
  ghost function FullRanking(snapshot: Snapshot, corpus: Corpus, q: SearchQuery, idf: (nat, nat) -> real): seq<Hit>
    requires SnapshotOk(snapshot, corpus)
  {
    SnapshotLength(snapshot, corpus);
    HitsDistinct(snapshot, corpus, q, idf);
    OrdersHits(AllHits(snapshot, corpus, q, idf));
    Listing(AllHits(snapshot, corpus, q, idf), Better)
  }

  lemma SnapshotLength(snapshot: Snapshot, corpus: Corpus)
    requires SnapshotOk(snapshot, corpus)
    ensures |snapshot| == |corpus|
  {
  }

  lemma HitsDistinct(snapshot: Snapshot, corpus: Corpus, q: SearchQuery, idf: (nat, nat) -> real)
    requires SnapshotOk(snapshot, corpus) && |snapshot| == |corpus|
    ensures OnePerDocument(AllHits(snapshot, corpus, q, idf))
  {
    hide SnapshotOk, OnePerDocument;
    if snapshot != [] {
      var s := |snapshot| - 1;
      SameLength(snapshot, corpus);
      SeenWhole(snapshot, corpus, q, idf, s);
      SeenDistinct(snapshot, corpus, q, idf, s, |corpus[s]|);
    } else {
      NoneDistinct();
    }
  }

  lemma NoneDistinct()
    ensures OnePerDocument({})
  {
  }

  predicate PageAllowed(q: SearchQuery) {
    q.pageSize != 0 && q.offset <= 1000 && q.pageSize <= 1000 - q.offset
  }

  /** What a search must return. */
  ghost function PageOf(snapshot: Snapshot, corpus: Corpus, q: SearchQuery, idf: (nat, nat) -> real): SearchPage
    requires SnapshotOk(snapshot, corpus)
  {
    SnapshotLength(snapshot, corpus);
    SearchPage(Version(snapshot), |AllHits(snapshot, corpus, q, idf)|,
               Slice(FullRanking(snapshot, corpus, q, idf), q.offset, q.pageSize))
  }

  /** SearchEngine::search refines the naive scan: the page is the slice of the full ranking of all
      hits, and totalHits is their number. None is the exception about pagination. */
  method Search(snapshot: Snapshot, ghost corpus: Corpus, q: SearchQuery, idf: (nat, nat) -> real)
    returns (r: Option<SearchPage>)
    requires SnapshotOk(snapshot, corpus)
    ensures r == None <==> q.pageSize == 0 || q.offset + q.pageSize > 1000
    ensures r.Some? ==> r.value == PageOf(snapshot, corpus, q, idf)
    ensures r.Some? ==> r.value.version == if snapshot == [] then 0 else snapshot[|snapshot| - 1].batchId
    ensures r.Some? ==> |snapshot| == |corpus| && r.value.totalHits == |AllHits(snapshot, corpus, q, idf)|
                        && IsPage(r.value.items, AllHits(snapshot, corpus, q, idf), q.offset, q.pageSize)
  {
    hide *;
    PageAllowedIs(q);
    if q.pageSize == 0 || q.offset > 1000 || q.pageSize > 1000 - q.offset {
      return None;
    }
    SnapshotLength(snapshot, corpus);
    var terms := NormalizedTerms(q.keywords);
    TermsListed(terms, q.keywords);
    var df, documentCount, averageLength := GlobalStatistics(snapshot, corpus, terms);
    StatisticsHold(corpus, terms, q.keywords, df, documentCount, averageLength);
    var capacity := q.offset + q.pageSize;
    var best: set<Hit> := {};
    var totalHits := 0;
    NothingSeen(snapshot, corpus, q, idf, capacity);
    var s := 0;
    while s < |snapshot|
      invariant s <= |snapshot|
      invariant IsTop(best, HitsBefore(snapshot, corpus, q, idf, s), capacity)
      invariant totalHits == |HitsBefore(snapshot, corpus, q, idf, s)|
    {
      best, totalHits := SearchSegment(snapshot, corpus, q, s, terms, df, documentCount, averageLength, idf, best,
                                       totalHits, capacity);
      s := s + 1;
    }
    PageIs(snapshot, corpus, q, idf);
    HitsDistinct(snapshot, corpus, q, idf);
    TopSlice(best, AllHits(snapshot, corpus, q, idf), q.offset, q.pageSize);
    var ranked := InOrder(best, Better);
    VersionIs(snapshot);
    r := Some(SearchPage(Version(snapshot), totalHits, Slice(ranked, q.offset, q.pageSize)));
  }

  /** The page by ranks: the item in place `j` has exactly `offset + j` better hits, and a hit is an item
      exactly when the number of better ones lies in the page. */
  lemma PageByRank(snapshot: Snapshot, corpus: Corpus, q: SearchQuery, idf: (nat, nat) -> real, h: Hit)
    requires SnapshotOk(snapshot, corpus)
    ensures |snapshot| == |corpus|
    ensures var hits, items := AllHits(snapshot, corpus, q, idf), PageOf(snapshot, corpus, q, idf).items;
            && |items| == Max(0, Min(q.pageSize, |hits| - q.offset))
            && (forall j :: 0 <= j < |items| ==> items[j] in hits && |BetterThan(hits, items[j])| == q.offset + j)
            && (h in items <==> h in hits && q.offset <= |BetterThan(hits, h)| < q.offset + q.pageSize)
  {
    hide SnapshotOk, AllHits, Slice, Better, PageOf;
    SnapshotLength(snapshot, corpus);
    PageIs(snapshot, corpus, q, idf);
    HitsDistinct(snapshot, corpus, q, idf);
    var hits := AllHits(snapshot, corpus, q, idf);
    SliceIsPage(hits, q.offset, q.pageSize);
    OnPageIff(PageOf(snapshot, corpus, q, idf).items, hits, q.offset, q.pageSize, h);
  }

  /** The items come in order: higher scores first, then later events, then higher ids. */
  lemma PageInOrder(snapshot: Snapshot, corpus: Corpus, q: SearchQuery, idf: (nat, nat) -> real, i: nat, j: nat)
    requires SnapshotOk(snapshot, corpus) && i < j < |PageOf(snapshot, corpus, q, idf).items|
    ensures var a, b := PageOf(snapshot, corpus, q, idf).items[i], PageOf(snapshot, corpus, q, idf).items[j];
            && a.score >= b.score
            && (a.score == b.score ==> a.document.occurredAt >= b.document.occurredAt)
            && (a.score == b.score && a.document.occurredAt == b.document.occurredAt ==>
                  a.document.docId > b.document.docId)
  {
    SnapshotLength(snapshot, corpus);
    PageIs(snapshot, corpus, q, idf);
    hide SnapshotOk, AllHits, Slice, PageOf;
    var s := Listing(AllHits(snapshot, corpus, q, idf), Better);
    SliceAt(s, q.offset, q.pageSize);
    assert Better(s[q.offset + i], s[q.offset + j]);
  }

  lemma VersionIs(snapshot: Snapshot)
    ensures Version(snapshot) == if snapshot == [] then 0 else snapshot[|snapshot| - 1].batchId
  {
  }

  lemma PageAllowedIs(q: SearchQuery)
    ensures PageAllowed(q) <==> q.pageSize != 0 && q.offset <= 1000 && q.pageSize <= 1000 - q.offset
  {
  }

  lemma TermsListed(terms: seq<Term>, keywords: seq<Bytes>)
    requires Lists(terms, QueryTerms(keywords), Less)
    ensures forall t :: t in terms <==> t in QueryTerms(keywords)
  {
    hide QueryTerms, Less;
  }

  lemma StatisticsHold(corpus: Corpus, terms: seq<Term>, keywords: seq<Bytes>, df: map<Term, nat>, documentCount: nat,
                       averageLength: real)
    requires forall t :: t in terms <==> t in QueryTerms(keywords)
    requires forall t <- terms :: Of(df, t) == GlobalCount(corpus, t)
    requires documentCount == DocumentCount(corpus) && averageLength == AverageLength(corpus)
    ensures StatisticsOf(corpus, QueryTerms(keywords), df, documentCount, averageLength)
  {
    hide QueryTerms, GlobalCount, DocumentCount, AverageLength, Of;
  }

  lemma NothingSeen(snapshot: Snapshot, corpus: Corpus, q: SearchQuery, idf: (nat, nat) -> real, capacity: nat)
    requires |snapshot| == |corpus|
    ensures HitsBefore(snapshot, corpus, q, idf, 0) == {} && IsTop({}, {}, capacity)
  {
  }

  lemma PageIs(snapshot: Snapshot, corpus: Corpus, q: SearchQuery, idf: (nat, nat) -> real)
    requires SnapshotOk(snapshot, corpus) && |snapshot| == |corpus|
    ensures AllHits(snapshot, corpus, q, idf) == HitsBefore(snapshot, corpus, q, idf, |snapshot|)
    ensures Orders(AllHits(snapshot, corpus, q, idf), Better)
    ensures PageOf(snapshot, corpus, q, idf)
         == SearchPage(Version(snapshot), |AllHits(snapshot, corpus, q, idf)|,
                       Slice(Listing(AllHits(snapshot, corpus, q, idf), Better), q.offset, q.pageSize))
  {
    hide SnapshotOk;
    HitsDistinct(snapshot, corpus, q, idf);
    OrdersHits(AllHits(snapshot, corpus, q, idf));
  }

  // ---------------------------------------------------------------- pages

  /** Paging does not change what a hit is. */
  lemma {:induction false} SameHits(snapshot: Snapshot, corpus: Corpus, q: SearchQuery, p: SearchQuery,
                                    idf: (nat, nat) -> real, s: nat)
    requires |snapshot| == |corpus| && s <= |snapshot|
    requires p == q.(offset := p.offset, pageSize := p.pageSize)
    ensures HitsBefore(snapshot, corpus, p, idf, s) == HitsBefore(snapshot, corpus, q, idf, s)
  {
    hide QueryTerms, SumOver;
    if s > 0 {
      var last := s - 1;
      SameHits(snapshot, corpus, q, p, idf, last);
      var n := |snapshot[last].documents|;
      forall i: nat
        ensures IsHit(snapshot, corpus, p, last, i) == IsHit(snapshot, corpus, q, last, i)
      {
      }
      forall i: nat | IsHit(snapshot, corpus, q, last, i)
        ensures HitAt(snapshot, corpus, p, idf, last, i) == HitAt(snapshot, corpus, q, idf, last, i)
      {
      }
      assert HitsIn(snapshot, corpus, p, idf, last, n) == HitsIn(snapshot, corpus, q, idf, last, n);
    }
  }

  /** Two consecutive pages together are one longer page: no gap and no repeat. */
  lemma PagesConcatenate(snapshot: Snapshot, corpus: Corpus, q: SearchQuery, more: nat, idf: (nat, nat) -> real)
    requires SnapshotOk(snapshot, corpus)
    ensures var next := q.(offset := q.offset + q.pageSize, pageSize := more);
            var both := q.(pageSize := q.pageSize + more);
            PageOf(snapshot, corpus, q, idf).items + PageOf(snapshot, corpus, next, idf).items
              == PageOf(snapshot, corpus, both, idf).items
  {
    hide *;
    SnapshotLength(snapshot, corpus);
    var next := q.(offset := q.offset + q.pageSize, pageSize := more);
    var both := q.(pageSize := q.pageSize + more);
    SameHits(snapshot, corpus, q, next, idf, |snapshot|);
    SameHits(snapshot, corpus, q, both, idf, |snapshot|);
    PageIs(snapshot, corpus, q, idf);
    PageIs(snapshot, corpus, next, idf);
    PageIs(snapshot, corpus, both, idf);
    SlicesFollow(Listing(AllHits(snapshot, corpus, q, idf), Better), q.offset, q.pageSize, more);
  }
}
