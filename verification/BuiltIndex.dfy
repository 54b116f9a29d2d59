// From a build to a search: the Segment of a build indexes exactly the texts it was built from.

module BuiltIndex {
  import opened Common
  import opened ParsedBatches
  import opened SearchIndex
  import opened SegmentBuild
  import opened SegmentLoad
  import opened SegmentPostings
  import opened SegmentRecords
  import opened Terms

  lemma BuiltSegmentIndexes(c: SegmentContent, storage: Storage, sha: Bytes -> Bytes, b: ParsedBatch,
                            lookup: map<Term, nat>)
    requires Built(c, storage, sha, b) && IsLookup(lookup, c.terms)
    ensures b.descriptor.batchId < 0x1_0000_0000
    ensures Indexes(Segment(b.descriptor.batchId, c.files, c.documents, c.terms, c.postings, lookup), Texts(storage, b))
  {
    hide BatchOk, TermsAccepted, PostingsAccepted, Unflatten, Inverted, FromRows, TotalTerms, MinTime, MaxTime,
         AllIntact, Texts, Tokens, IsLookup, IsDocument;
    var seg := Segment(b.descriptor.batchId, c.files, c.documents, c.terms, c.postings, lookup);
    BuiltPostings(c, storage, sha, b);
    forall i | 0 <= i < |c.documents|
      ensures IsDocumentAt(seg, Texts(storage, b), i)
    {
      BuiltDocumentOk(c, storage, sha, b, i);
      BuiltTermCount(c, storage, sha, b, i);
    }
  }

  lemma BuiltTermCount(c: SegmentContent, storage: Storage, sha: Bytes -> Bytes, b: ParsedBatch, i: nat)
    requires Built(c, storage, sha, b) && i < |c.documents|
    ensures c.documents[i].termCount == |Tokens(Texts(storage, b)[i])|
  {
    hide BatchOk, TermsAccepted, Unflatten, Inverted, FromRows, TotalTerms, MinTime, MaxTime, AllIntact, Texts, Tokens;
    assert IsDocument(c.documents[i], b, i);
  }

  // ---------------------------------------------------------------- frequencies of one document

  /** The frequency that a term's range of the postings table stores for a document. */
  function StoredFrequency(t: TermRecord, postings: seq<Posting>, d: nat): nat {
    var row := RowOf(RangeOf(t, postings));
    if d in row then row[d] else 0
  }

  /** The frequencies of a document, added over the whole terms table. */
  function StoredSum(terms: seq<TermRecord>, postings: seq<Posting>, d: nat): nat {
    if terms == [] then 0
    else StoredSum(terms[..|terms| - 1], postings, d) + StoredFrequency(terms[|terms| - 1], postings, d)
  }

  function TableTerms(terms: seq<TermRecord>): set<Term> {
    set i | 0 <= i < |terms| :: terms[i].term
  }

  /** Adding up a table of distinct terms with true frequencies counts each token once. */
  lemma {:induction false} StoredSumCounts(terms: seq<TermRecord>, postings: seq<Posting>, d: nat, tokens: seq<Term>)
    requires forall i, j :: 0 <= i < j < |terms| ==> terms[i].term != terms[j].term
    requires forall i :: 0 <= i < |terms| ==> StoredFrequency(terms[i], postings, d) == Count(tokens, terms[i].term)
    ensures StoredSum(terms, postings, d) == SumCounts(tokens, TableTerms(terms))
  {
    hide SumCounts, StoredFrequency, Count;
    if terms == [] {
      NoTermsNoCount(tokens);
      assert TableTerms(terms) == {};
    } else {
      var k := |terms| - 1;
      StoredSumCounts(terms[..k], postings, d, tokens);
      SumCountsRemove(tokens, TableTerms(terms), terms[k].term);
      assert TableTerms(terms) - {terms[k].term} == TableTerms(terms[..k]);
    }
  }

  lemma NoTermsNoCount(tokens: seq<Term>)
    ensures SumCounts(tokens, {}) == 0
  {
  }

  lemma StoredIsCount(seg: Segment, texts: seq<Bytes>, d: nat, i: nat)
    requires Indexes(seg, texts) && d < |texts| && i < |seg.terms|
    ensures StoredFrequency(seg.terms[i], seg.postings, d) == Count(Tokens(texts[d]), seg.terms[i].term)
  {
    hide RowOf, RangeOf, Unflatten, TermsAccepted, PostingsAccepted, Tokens, IsDocumentAt, Inverted, IsLookup;
    var t := seg.terms[i];
    AcceptedSoFar(seg.terms, seg.postings);
    UnflattenTerms(seg.terms, seg.postings);
    InvertedHas(texts, t.term);
    assert RowOf(RangeOf(t, seg.postings)) == InvertedRow(texts, t.term);
  }

  lemma TermsCoverDocument(seg: Segment, texts: seq<Bytes>, d: nat)
    requires Indexes(seg, texts) && d < |texts|
    ensures forall t :: t in Tokens(texts[d]) ==> t in TableTerms(seg.terms)
  {
    hide RowOf, RangeOf, Unflatten, TermsAccepted, PostingsAccepted, Tokens, IsDocumentAt, Inverted, IsLookup;
    AcceptedSoFar(seg.terms, seg.postings);
    UnflattenTerms(seg.terms, seg.postings);
    forall t | t in Tokens(texts[d])
      ensures t in TableTerms(seg.terms)
    {
      InvertedHas(texts, t);
      assert d in Holders(texts, t);
    }
  }

  /** In the tables of a Segment the frequencies of a document add up to its term count. */
  lemma DocumentFrequenciesSum(seg: Segment, texts: seq<Bytes>, d: nat)
    requires Indexes(seg, texts) && d < |texts|
    ensures StoredSum(seg.terms, seg.postings, d) == seg.documents[d].termCount
  {
    hide StoredSum, StoredFrequency, TermsAccepted, PostingsAccepted, Unflatten, Inverted, IsLookup, Tokens, SumCounts;
    forall i, j | 0 <= i < j < |seg.terms|
      ensures seg.terms[i].term != seg.terms[j].term
    {
      AcceptedSoFar(seg.terms, seg.postings);
      TermsSorted(seg.terms, seg.postings, i, j);
      LessIrreflexive(seg.terms[i].term);
    }
    forall i | 0 <= i < |seg.terms|
      ensures StoredFrequency(seg.terms[i], seg.postings, d) == Count(Tokens(texts[d]), seg.terms[i].term)
    {
      StoredIsCount(seg, texts, d, i);
    }
    StoredSumCounts(seg.terms, seg.postings, d, Tokens(texts[d]));
    TermsCoverDocument(seg, texts, d);
    FrequenciesSum(Tokens(texts[d]), TableTerms(seg.terms));
    assert IsDocumentAt(seg, texts, d);
  }
}
