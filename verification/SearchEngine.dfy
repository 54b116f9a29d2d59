// SearchEngine::search: the index, the bounded queue and the page refine the naive scan.

module SearchEngine {
  import opened Common
  import opened Ranking
  import opened SearchHits
  import opened SearchIndex
  import opened SegmentPostings
  import opened SegmentRecords
  import opened Sorting
  import opened Terms

  datatype SearchPage = SearchPage(version: nat, totalHits: nat, items: seq<Hit>)

  /** The version of a snapshot is its last batch id. */
  function Version(snapshot: Snapshot): nat {
    if snapshot == [] then 0 else snapshot[|snapshot| - 1].batchId
  }

  // ---------------------------------------------------------------- terms and statistics

  /** normalizedTerms */
  method NormalizedTerms(keywords: seq<Bytes>) returns (terms: seq<Term>)
    ensures Lists(terms, QueryTerms(keywords), Less) && Distinct(terms)
  {
    hide Tokens, Less;
    var unique: set<Term> := {};
    var k := 0;
    while k < |keywords|
      invariant k <= |keywords|
      invariant unique == QueryTerms(keywords[..k])
    {
      var found := TokenizeTerms(keywords[k]);
      assert keywords[..k + 1] == keywords[..k] + [keywords[k]];
      MoreTerms(keywords, k);
      unique := unique + set t | t in found;
      k := k + 1;
    }
    assert keywords[..k] == keywords;
    OrdersTerms(unique);
    terms := InOrder(unique, Less);
    SortedDistinct(terms);
  }

  lemma MoreTerms(keywords: seq<Bytes>, k: nat)
    requires k < |keywords|
    ensures QueryTerms(keywords[..k + 1]) == QueryTerms(keywords[..k]) + set t | t in Tokens(keywords[k])
  {
    hide Tokens;
    var before, after := keywords[..k], keywords[..k + 1];
    forall t
      ensures t in QueryTerms(after) <==> t in QueryTerms(before) || t in Tokens(keywords[k])
    {
      if t in QueryTerms(before) {
        var j :| 0 <= j < |before| && t in Tokens(before[j]);
        assert after[j] == before[j];
      }
      if t in QueryTerms(after) {
        var j :| 0 <= j < |after| && t in Tokens(after[j]);
        assert j < k ==> before[j] == after[j];
      }
      assert after[k] == keywords[k];
    }
  }

  lemma SortedDistinct(terms: seq<Term>)
    requires Sorted(terms, Less)
    ensures Distinct(terms)
  {
    hide Less;
    forall i, j | 0 <= i < j < |terms|
      ensures terms[i] != terms[j]
    {
      LessIrreflexive(terms[i]);
    }
  }

  /** The value `global_df[t]` reads. */
  function Of(df: map<Term, nat>, t: Term): nat {
    if t in df then df[t] else 0
  }

  /** One Segment's share of global_df. */
  method AddFrequencies(seg: Segment, ghost texts: seq<Bytes>, terms: seq<Term>, df: map<Term, nat>)
    returns (r: map<Term, nat>)
    requires Indexes(seg, texts) && Distinct(terms)
    ensures forall t :: Of(r, t) == Of(df, t) + if t in terms then |Holders(texts, t)| else 0
  {
    hide Indexes, Holders;
    r := df;
    var i := 0;
    while i < |terms|
      invariant i <= |terms|
      invariant forall t :: Of(r, t) == Of(df, t) + if t in terms[..i] then |Holders(texts, t)| else 0
    {
      Lookup(seg, texts, terms[i]);
      assert terms[..i + 1] == terms[..i] + [terms[i]];
      assert terms[i] !in terms[..i];
      if terms[i] in seg.lookup {
        r := r[terms[i] := Of(r, terms[i]) + seg.terms[seg.lookup[terms[i]]].documentFrequency];
      }
      i := i + 1;
    }
    assert terms[..i] == terms;
  }

  method AddLengths(seg: Segment, ghost texts: seq<Bytes>, total: nat) returns (r: nat)
    requires Indexes(seg, texts)
    ensures r == total + TextLength(texts)
  {
    hide Tokens, Unflatten, TermsAccepted, Inverted;
    r := total;
    var i := 0;
    while i < |seg.documents|
      invariant i <= |seg.documents| && r == total + TextLength(texts[..i])
    {
      assert texts[..i + 1][..i] == texts[..i];
      assert IsDocumentAt(seg, texts, i);
      r := r + seg.documents[i].termCount;
      i := i + 1;
    }
    assert texts[..i] == texts;
  }

  /** The first loop of search: document frequencies, document count and average length are those of
      the texts. */
  method GlobalStatistics(snapshot: Snapshot, ghost corpus: Corpus, terms: seq<Term>)
    returns (df: map<Term, nat>, documentCount: nat, averageLength: real)
    requires SnapshotOk(snapshot, corpus) && Distinct(terms)
    ensures forall t <- terms :: Of(df, t) == GlobalCount(corpus, t)
    ensures documentCount == DocumentCount(corpus) && averageLength == AverageLength(corpus)
  {
    hide Indexes, Holders, TextLength, Distinct;
    df, documentCount := map[], 0;
    var totalLength := 0;
    var s := 0;
    while s < |snapshot|
      invariant s <= |snapshot|
      invariant forall t <- terms :: Of(df, t) == GlobalCount(corpus[..s], t)
      invariant documentCount == DocumentCount(corpus[..s]) && totalLength == TotalLength(corpus[..s])
    {
      assert corpus[..s + 1][..s] == corpus[..s];
      SameSize(snapshot[s], corpus[s]);
      df := AddFrequencies(snapshot[s], corpus[s], terms, df);
      totalLength := AddLengths(snapshot[s], corpus[s], totalLength);
      documentCount := documentCount + |snapshot[s].documents|;
      s := s + 1;
    }
    assert corpus[..s] == corpus;
    averageLength := if documentCount == 0 then 1.0 else totalLength as real / documentCount as real;
  }

  // ---------------------------------------------------------------- one Segment

  /** The records of the query terms, or None when the Segment lacks one of them. */
  method SegmentTerms(seg: Segment, ghost texts: seq<Bytes>, terms: seq<Term>) returns (r: Option<seq<TermRecord>>)
    requires Indexes(seg, texts)
    ensures r == None <==> exists t <- terms :: Holders(texts, t) == {}
    ensures r.Some? ==> Names(r.value) == terms && DescribeAll(seg, r.value, texts)
  {
    hide Indexes, Holders, Describes;
    var records := [];
    while |records| < |terms|
      invariant |records| <= |terms| && Names(records) == terms[..|records|] && DescribeAll(seg, records, texts)
      invariant forall t <- terms[..|records|] :: Holders(texts, t) != {}
    {
      var term := terms[|records|];
      Lookup(seg, texts, term);
      if term !in seg.lookup {
        assert term in terms;
        return None;
      }
      var record := seg.terms[seg.lookup[term]];
      assert record.term == term by { DescribesTerm(seg, record, texts, term); }
      assert terms[..|records| + 1] == terms[..|records|] + [term];
      assert Names(records + [record]) == Names(records) + [term];
      records := records + [record];
    }
    assert terms[..|records|] == terms;
    r := Some(records);
  }

  lemma DescribesTerm(seg: Segment, record: TermRecord, texts: seq<Bytes>, term: Term)
    requires Describes(seg, record, texts, term)
    ensures record.term == term
  {
  }

  predicate NotMoreFrequent(a: TermRecord, b: TermRecord) {
    a.documentFrequency <= b.documentFrequency
  }

  /** std::sort by document frequency: some order of the records, rarest first. Ties come in any order. */
  method SortByFrequency(records: seq<TermRecord>) returns (sorted: seq<TermRecord>)
    ensures Ordered(sorted, NotMoreFrequent) && multiset(sorted) == multiset(records)
  {
    ghost var example := CanSort(records, NotMoreFrequent);
    sorted :| (forall i, j :: 0 <= i < j < |sorted| ==> NotMoreFrequent(sorted[i], sorted[j]))
              && multiset(sorted) == multiset(records);
  }

  lemma {:induction false} DistinctCounts(s: seq<Term>, t: Term)
    requires Distinct(s)
    ensures multiset(s)[t] <= 1
  {
    if s != [] {
      var k := |s| - 1;
      DistinctCounts(s[..k], t);
      assert s == s[..k] + [s[k]];
      assert forall i :: 0 <= i < k ==> s[..k][i] == s[i];
      assert s[k] !in s[..k];
      assert multiset(s)[t] == multiset(s[..k])[t] + if t == s[k] then 1 else 0;
      assert t !in s[..k] ==> multiset(s[..k])[t] == 0;
    }
  }

  lemma CountsDistinct(s: seq<Term>)
    requires forall t :: multiset(s)[t] <= 1
    ensures Distinct(s)
  {
    forall i, j | 0 <= i < j < |s|
      ensures s[i] != s[j]
    {
      var a, b := s[..j], s[j..];
      assert s == a + b && a[i] == s[i] && b[0] == s[j];
      assert multiset(s) == multiset(a) + multiset(b);
      assert multiset(s)[s[j]] == multiset(a)[s[j]] + multiset(b)[s[j]];
      assert b[0] in multiset(b);
      assert a[i] in multiset(a);
    }
  }

  lemma {:induction false} NamesCount(records: seq<TermRecord>, more: seq<TermRecord>)
    requires multiset(records) == multiset(more)
    ensures multiset(Names(records)) == multiset(Names(more))
    decreases |records|
  {
    if records == [] {
      assert |more| == |multiset(more)| == 0;
    } else {
      var k := |records| - 1;
      var last := records[k];
      assert records == records[..k] + [last];
      assert last in multiset(more);
      var j :| 0 <= j < |more| && more[j] == last;
      var rest := more[..j] + more[j + 1..];
      WithoutOne(more, j);
      assert multiset(records[..k]) == multiset(records) - multiset{last};
      NamesCount(records[..k], rest);
      assert Names(records) == Names(records[..k]) + [last.term];
    }
  }

  lemma WithoutOne(more: seq<TermRecord>, j: nat)
    requires j < |more|
    ensures multiset(more[..j] + more[j + 1..]) == multiset(more) - multiset{more[j]}
    ensures multiset(Names(more)) == multiset(Names(more[..j] + more[j + 1..])) + multiset{more[j].term}
  {
    assert more == more[..j] + [more[j]] + more[j + 1..];
    assert Names(more) == Names(more[..j]) + [more[j].term] + Names(more[j + 1..]);
    assert Names(more[..j] + more[j + 1..]) == Names(more[..j]) + Names(more[j + 1..]);
  }

  /** Sorting keeps what the records describe. */
  lemma SortedRecords(seg: Segment, records: seq<TermRecord>, sorted: seq<TermRecord>, texts: seq<Bytes>)
    requires multiset(sorted) == multiset(records) && DescribeAll(seg, records, texts) && Distinct(Names(records))
    ensures DescribeAll(seg, sorted, texts) && Distinct(Names(sorted)) && |sorted| == |records|
    ensures forall t :: t in Names(sorted) <==> t in Names(records)
  {
    hide Describes;
    NamesCount(sorted, records);
    assert |sorted| == |multiset(sorted)| && |records| == |multiset(records)|;
    forall t
      ensures multiset(Names(sorted))[t] <= 1
    {
      DistinctCounts(Names(records), t);
    }
    CountsDistinct(Names(sorted));
    forall t
      ensures t in Names(sorted) <==> t in Names(records)
    {
      assert t in Names(sorted) <==> t in multiset(Names(sorted));
      assert t in Names(records) <==> t in multiset(Names(records));
    }
    forall i | 0 <= i < |sorted|
      ensures Describes(seg, sorted[i], texts, sorted[i].term)
    {
      assert sorted[i] in multiset(sorted);
      assert sorted[i] in multiset(records);
      var j :| 0 <= j < |records| && records[j] == sorted[i];
    }
  }

  // ---------------------------------------------------------------- one candidate

  /** What the statistics of the first loop are worth. */
  ghost predicate StatisticsOf(corpus: Corpus, terms: set<Term>, df: map<Term, nat>, documentCount: nat,
                               averageLength: real)
  {
    && (forall t <- terms :: Of(df, t) == GlobalCount(corpus, t))
    && documentCount == DocumentCount(corpus) && averageLength == AverageLength(corpus)
  }

  /** The score of a candidate, added up over the sorted records. */
  method Score(snapshot: Snapshot, ghost corpus: Corpus, q: SearchQuery, s: nat, i: nat, records: seq<TermRecord>,
               df: map<Term, nat>, documentCount: nat, averageLength: real, idf: (nat, nat) -> real)
    returns (score: real)
    requires SnapshotOk(snapshot, corpus) && s < |snapshot| && i < |corpus[s]| && i < |snapshot[s].documents|
    requires DescribeAll(snapshot[s], records, corpus[s]) && Distinct(Names(records))
    requires forall t :: t in Names(records) <==> t in QueryTerms(q.keywords)
    requires HoldsAll(corpus[s], Names(records), i)
    requires StatisticsOf(corpus, QueryTerms(q.keywords), df, documentCount, averageLength)
    ensures score == ScoreAt(snapshot, corpus, q, idf, s, i)
  {
    hide SnapshotOk, Describes, GlobalCount, AverageLength, DocumentCount, QueryTerms, Contribution, Tokens, Indexes,
         Ascending;
    SameLength(snapshot, corpus);
    var seg := snapshot[s];
    var document := seg.documents[i];
    ghost var f := TermScores(corpus, s, i, idf);
    score := BusinessWeight(document, q);
    var index := 0;
    while index < |records|
      invariant index <= |records|
      invariant score == BusinessWeight(document, q) + SumSeq(Names(records)[..index], f)
    {
      var record := records[index];
      assert Names(records)[index] == record.term;
      assert record.term in Names(records);
      CandidateFacts(snapshot, corpus, s, i, record);
      var frequency := TermFrequency(seg.postings, record, i);
      AveragePositive(corpus, s, i);
      assert Names(records)[..index + 1][..index] == Names(records)[..index];
      ghost var added := Contribution(idf(Of(df, record.term), documentCount), frequency, document.termCount,
                                      averageLength);
      assert f(record.term) == added;
      score := score + Contribution(idf(Of(df, record.term), documentCount), frequency, document.termCount,
                                    averageLength);
      index := index + 1;
    }
    assert Names(records)[..index] == Names(records);
    SumInAnyOrder(Names(records), QueryTerms(q.keywords), f);
  }

  lemma CandidateFacts(snapshot: Snapshot, corpus: Corpus, s: nat, i: nat, record: TermRecord)
    requires SnapshotOk(snapshot, corpus) && s < |snapshot| && i < |corpus[s]| && i < |snapshot[s].documents|
    requires Describes(snapshot[s], record, corpus[s], record.term) && i in Holders(corpus[s], record.term)
    ensures record.begin + record.count <= |snapshot[s].postings| && Ascending(Ids(snapshot[s].postings, record))
    ensures record.term in Tokens(corpus[s][i]) && snapshot[s].documents[i].termCount == |Tokens(corpus[s][i])|
    ensures ReadFrequency(snapshot[s].postings, record, i) == Count(Tokens(corpus[s][i]), record.term)
  {
    hide TermsAccepted, PostingsAccepted, Unflatten, Inverted, IsLookup, Tokens, Count;
    assert IsDocumentAt(snapshot[s], corpus[s], i);
    CandidateFrequency(snapshot[s], record, corpus[s], i);
  }
}
