// Looking terms up in a loaded Segment: postings, term frequencies and candidate documents.

module SearchIndex {
  import opened Common
  import opened SegmentPostings
  import opened SegmentRecords
  import opened SegmentTables
  import opened Terms

  datatype Segment = Segment(
    batchId: U32, files: seq<FileRecord>, documents: seq<DocumentRecord>, terms: seq<TermRecord>,
    postings: seq<Posting>, lookup: map<Term, nat>)

  /** The Segment indexes these texts: what a build produces and loading accepts. */
  ghost predicate Indexes(seg: Segment, texts: seq<Bytes>) {
    && |texts| == |seg.documents|
    && TermsAccepted(seg.terms, seg.postings) && PostingsAccepted(seg.postings, |texts|)
    && Unflatten(seg.terms, seg.postings) == Inverted(texts)
    && IsLookup(seg.lookup, seg.terms)
    && forall i :: 0 <= i < |texts| ==> IsDocumentAt(seg, texts, i)
  }

  ghost predicate IsDocumentAt(seg: Segment, texts: seq<Bytes>, i: nat)
    requires i < |seg.documents| && i < |texts|
  {
    var d := seg.documents[i];
    && d.localId == i && d.docId == seg.batchId * 0x1_0000_0000 + i && d.fileOrdinal < |seg.files|
    && d.termCount == |Tokens(texts[i])|
  }

  /** The local ids of a term, in order. */
  function Ids(postings: seq<Posting>, t: TermRecord): seq<nat>
    requires t.begin + t.count <= |postings|
  {
    seq<nat>(t.count, i requires 0 <= i < t.count => postings[t.begin + i].localId)
  }

  /** What the record of a term says about the texts. */
  ghost predicate Describes(seg: Segment, t: TermRecord, texts: seq<Bytes>, term: Term) {
    && t.term == term && t.begin + t.count <= |seg.postings|
    && t.documentFrequency == t.count == |Holders(texts, term)|
    && Ascending(Ids(seg.postings, t))
    && (forall d :: d in Ids(seg.postings, t) <==> d in Holders(texts, term))
    && forall i :: t.begin <= i < t.begin + t.count ==>
         var p := seg.postings[i];
         p.localId < |texts| && p.frequency == Count(Tokens(texts[p.localId]), term)
  }

  lemma TermBounds(terms: seq<TermRecord>, postings: seq<Posting>, i: nat)
    requires TermsAccepted(terms, postings) && i < |terms|
    ensures terms[i].begin + terms[i].count <= |postings| && terms[i].documentFrequency == terms[i].count
    ensures Increasing(RangeOf(terms[i], postings))
  {
    assert TermOk(terms, i, postings);
  }

  lemma RangeIds(seg: Segment, t: TermRecord)
    requires t.begin + t.count <= |seg.postings| && Increasing(RangeOf(t, seg.postings))
    ensures Ascending(Ids(seg.postings, t))
    ensures forall d :: d in Ids(seg.postings, t) <==> InList(RangeOf(t, seg.postings), d)
  {
    var list, ids := RangeOf(t, seg.postings), Ids(seg.postings, t);
    assert |list| == |ids| && forall i :: 0 <= i < |ids| ==> ids[i] == list[i].localId;
    forall i, j | 0 <= i < j < |ids|
      ensures ids[i] < ids[j]
    {
      IncreasingFar(list, i, j);
    }
  }

  /** term_lookup finds a term exactly when some document has it, and then the record describes it. */
  lemma Lookup(seg: Segment, texts: seq<Bytes>, term: Term)
    requires Indexes(seg, texts)
    ensures term in seg.lookup <==> Holders(texts, term) != {}
    ensures term in seg.lookup ==>
              seg.lookup[term] < |seg.terms| && Describes(seg, seg.terms[seg.lookup[term]], texts, term)
  {
    hide RowOf, Unflatten, TermsAccepted, PostingsAccepted, Tokens, IsDocumentAt, Increasing, Inverted, Describes;
    assert TermsSoFar(seg.terms, seg.postings) by { AcceptedSoFar(seg.terms, seg.postings); }
    UnflattenTerms(seg.terms, seg.postings);
    InvertedHas(texts, term);
    if term in seg.lookup {
      var i := seg.lookup[term];
      TermBounds(seg.terms, seg.postings, i);
      Description(seg, texts, seg.terms[i]);
    }
  }

  lemma AcceptedSoFar(terms: seq<TermRecord>, postings: seq<Posting>)
    requires TermsAccepted(terms, postings)
    ensures TermsSoFar(terms, postings)
  {
  }

  lemma InvertedHas(texts: seq<Bytes>, term: Term)
    ensures term in Inverted(texts) <==> Holders(texts, term) != {}
    ensures term in Inverted(texts) ==> Inverted(texts)[term] == InvertedRow(texts, term)
  {
    hide Tokens;
    if term in AllTerms(texts) {
      var d :| 0 <= d < |texts| && term in Tokens(texts[d]);
      assert d in Holders(texts, term);
    }
    if Holders(texts, term) != {} {
      var d :| d in Holders(texts, term);
      assert term in AllTerms(texts);
    }
  }

  lemma RangeIs(postings: seq<Posting>, t: TermRecord)
    requires t.begin + t.count <= |postings|
    ensures |RangeOf(t, postings)| == t.count
    ensures forall i :: t.begin <= i < t.begin + t.count ==> RangeOf(t, postings)[i - t.begin] == postings[i]
  {
  }

  lemma RowMeans(texts: seq<Bytes>, term: Term)
    ensures InvertedRow(texts, term).Keys == Holders(texts, term)
    ensures forall d <- InvertedRow(texts, term) ::
            d < |texts| && InvertedRow(texts, term)[d] == Count(Tokens(texts[d]), term)
  {
    hide Tokens, Count;
  }

  lemma Description(seg: Segment, texts: seq<Bytes>, t: TermRecord)
    requires t.begin + t.count <= |seg.postings| && t.documentFrequency == t.count
    requires Increasing(RangeOf(t, seg.postings))
    requires RowOf(RangeOf(t, seg.postings)) == InvertedRow(texts, t.term)
    ensures Describes(seg, t, texts, t.term)
  {
    hide RowOf, RangeOf, InList, Tokens, Increasing, Count, Ascending, InvertedRow, Holders, Ids;
    var list := RangeOf(t, seg.postings);
    RangeIs(seg.postings, t);
    RowOfList(list);
    RangeIds(seg, t);
    RowMeans(texts, t.term);
    assert |InvertedRow(texts, t.term)| == |InvertedRow(texts, t.term).Keys|;
    forall i | t.begin <= i < t.begin + t.count
      ensures var p := seg.postings[i];
              p.localId < |texts| && p.frequency == Count(Tokens(texts[p.localId]), t.term)
    {
      assert list[i - t.begin] == seg.postings[i];
      assert list[i - t.begin].localId in RowOf(list);
    }
  }

  // ---------------------------------------------------------------- termFrequency

  /** Where a term's postings first reach `localId`. */
  function FirstAtLeast(postings: seq<Posting>, begin: nat, count: nat, localId: nat): (r: nat)
    requires begin + count <= |postings|
    ensures begin <= r <= begin + count
    ensures forall i :: begin <= i < r ==> postings[i].localId < localId
    ensures r < begin + count ==> postings[r].localId >= localId
    decreases count
  {
    if count == 0 || postings[begin].localId >= localId then begin
    else FirstAtLeast(postings, begin + 1, count - 1, localId)
  }

  /** The frequency the binary search reads: its last check looks at the whole posting array. */
  function ReadFrequency(postings: seq<Posting>, t: TermRecord, localId: nat): nat
    requires t.begin + t.count <= |postings|
  {
    var p := FirstAtLeast(postings, t.begin, t.count, localId);
    if p < |postings| && postings[p].localId == localId then postings[p].frequency else 0
  }

  /** termFrequency */
  method TermFrequency(postings: seq<Posting>, t: TermRecord, localId: nat) returns (frequency: nat)
    requires t.begin + t.count <= |postings| && Ascending(Ids(postings, t))
    ensures frequency == ReadFrequency(postings, t, localId)
  {
    var left, right := t.begin, t.begin + t.count;
    while left < right
      invariant t.begin <= left <= right <= t.begin + t.count
      invariant forall i :: t.begin <= i < left ==> postings[i].localId < localId
      invariant forall i :: right <= i < t.begin + t.count ==> postings[i].localId >= localId
    {
      var middle := left + (right - left) / 2;
      IdsAscend(postings, t);
      if postings[middle].localId < localId {
        left := middle + 1;
      } else {
        right := middle;
      }
    }
    frequency := if left < |postings| && postings[left].localId == localId then postings[left].frequency else 0;
  }

  lemma IdsAscend(postings: seq<Posting>, t: TermRecord)
    requires t.begin + t.count <= |postings| && Ascending(Ids(postings, t))
    ensures forall i, j :: t.begin <= i < j < t.begin + t.count ==> postings[i].localId < postings[j].localId
  {
    forall i, j | t.begin <= i < j < t.begin + t.count
      ensures postings[i].localId < postings[j].localId
    {
      var ids := Ids(postings, t);
      assert ids[i - t.begin] < ids[j - t.begin];
    }
  }

  /** For a document that has the term, the search reads the true frequency. */
  lemma CandidateFrequency(seg: Segment, t: TermRecord, texts: seq<Bytes>, localId: nat)
    requires Describes(seg, t, texts, t.term) && localId in Holders(texts, t.term)
    ensures ReadFrequency(seg.postings, t, localId) == Count(Tokens(texts[localId]), t.term)
  {
    hide Tokens, Count;
    var ids := Ids(seg.postings, t);
    assert localId in ids;
    var i :| 0 <= i < |ids| && ids[i] == localId;
    var p := FirstAtLeast(seg.postings, t.begin, t.count, localId);
    IdsAscend(seg.postings, t);
    assert p == t.begin + i;
  }

  /** The term's postings all come before the document, and the next posting of the table is one of the document. */
  predicate NextListStartsWith(postings: seq<Posting>, t: TermRecord, localId: nat)
    requires t.begin + t.count <= |postings|
  {
    && (forall i :: t.begin <= i < t.begin + t.count ==> postings[i].localId < localId)
    && t.begin + t.count < |postings| && postings[t.begin + t.count].localId == localId
  }

  /** For any document at all, it is the true frequency (0 without the term) exactly unless every
      posting of the term comes before the document and the next term's list starts with it. */
  lemma FrequencyExactIff(seg: Segment, t: TermRecord, texts: seq<Bytes>, localId: nat)
    requires Describes(seg, t, texts, t.term) && localId < |texts|
    requires forall i :: 0 <= i < |seg.postings| ==> seg.postings[i].frequency != 0
    ensures ReadFrequency(seg.postings, t, localId) == Count(Tokens(texts[localId]), t.term)
       <==> !NextListStartsWith(seg.postings, t, localId)
  {
    hide Tokens, Count, Holders, Ids;
    if localId in Holders(texts, t.term) {
      FoundWithin(seg, t, texts, localId);
      CandidateFrequency(seg, t, texts, localId);
    } else {
      NotThere(texts, localId, t.term);
      NotWithin(seg, t, texts, localId);
    }
  }

  lemma FoundWithin(seg: Segment, t: TermRecord, texts: seq<Bytes>, localId: nat)
    requires Describes(seg, t, texts, t.term) && localId in Holders(texts, t.term)
    ensures FirstAtLeast(seg.postings, t.begin, t.count, localId) < t.begin + t.count
  {
    hide Tokens, Count, Holders;
    var ids := Ids(seg.postings, t);
    var i :| 0 <= i < |ids| && ids[i] == localId;
  }

  lemma NotWithin(seg: Segment, t: TermRecord, texts: seq<Bytes>, localId: nat)
    requires Describes(seg, t, texts, t.term) && localId !in Holders(texts, t.term)
    ensures var p := FirstAtLeast(seg.postings, t.begin, t.count, localId);
            p < t.begin + t.count ==> seg.postings[p].localId != localId
  {
    hide Tokens, Count, Holders;
    var ids := Ids(seg.postings, t);
    var p := FirstAtLeast(seg.postings, t.begin, t.count, localId);
    if p < t.begin + t.count {
      assert ids[p - t.begin] in ids;
    }
  }

  lemma NotThere(texts: seq<Bytes>, localId: nat, term: Term)
    requires localId < |texts| && localId !in Holders(texts, term)
    ensures Count(Tokens(texts[localId]), term) == 0
  {
  }

  /** Of the texts "a" and "b", the first has the term "a" once and the second does not have it. */
  lemma TermAHeld()
    ensures var texts: seq<Bytes> := [[97], [98]];
            && Holders(texts, [97]) == {0}
            && Count(Tokens(texts[0]), [97]) == 1 && Count(Tokens(texts[1]), [97]) == 0
  {
    hide Tokens;
    var texts: seq<Bytes> := [[97], [98]];
    TokenizingATerm([97]);
    TokenizingATerm([98]);
    assert [98][0] != [97][0];
    forall d
      ensures d in Holders(texts, [97]) <==> d == 0
    {
    }
  }

  /** The whole-array check does matter: asked about the second text, which does not have the term "a", the
      search reads the frequency of "b". */
  lemma WrongForOthers()
    ensures exists seg: Segment, t: TermRecord, texts: seq<Bytes> ::
              && Describes(seg, t, texts, t.term) && |texts| == 2
              && ReadFrequency(seg.postings, t, 1) == 1 && Count(Tokens(texts[1]), t.term) == 0
  {
    hide Tokens, Count, Holders;
    var texts: seq<Bytes> := [[97], [98]];
    var a, b := TermRecord([97], 1, 0, 1), TermRecord([98], 1, 1, 1);
    var seg := Segment(1, [], [], [a, b], [Posting(0, 1), Posting(1, 1)], map[]);
    TermAHeld();
    assert Ids(seg.postings, a) == [0];
    assert Describes(seg, a, texts, [97]);
    assert FirstAtLeast(seg.postings, 0, 1, 1) == 1;
  }

  // ---------------------------------------------------------------- candidates

  /** `c` is what the first elements of both lists have in common, and the rest lies above them. */
  ghost predicate Merged(a: seq<nat>, b: seq<nat>, i: nat, j: nat, c: seq<nat>) {
    && i <= |a| && j <= |b| && Ascending(c)
    && (forall x :: x in c <==> x in a[..i] && x in b[..j])
    && (i < |a| ==> forall x <- b[..j] :: x < a[i])
    && (j < |b| ==> forall x <- a[..i] :: x < b[j])
  }

  lemma SkipLeft(a: seq<nat>, b: seq<nat>, i: nat, j: nat, c: seq<nat>)
    requires Ascending(a) && i < |a| && j < |b| && a[i] < b[j] && Merged(a, b, i, j, c)
    ensures Merged(a, b, i + 1, j, c)
  {
    hide Ascending;
    assert a[..i + 1] == a[..i] + [a[i]];
    assert i + 1 < |a| ==> a[i] < a[i + 1] by { NextAscends(a, i); }
  }

  lemma SkipRight(a: seq<nat>, b: seq<nat>, i: nat, j: nat, c: seq<nat>)
    requires Ascending(b) && i < |a| && j < |b| && b[j] < a[i] && Merged(a, b, i, j, c)
    ensures Merged(a, b, i, j + 1, c)
  {
    hide Ascending;
    assert b[..j + 1] == b[..j] + [b[j]];
    assert j + 1 < |b| ==> b[j] < b[j + 1] by { NextAscends(b, j); }
  }

  lemma TakeBoth(a: seq<nat>, b: seq<nat>, i: nat, j: nat, c: seq<nat>)
    requires Ascending(a) && Ascending(b) && i < |a| && j < |b| && a[i] == b[j] && Merged(a, b, i, j, c)
    ensures Merged(a, b, i + 1, j + 1, c + [a[i]])
  {
    assert Ascending(c + [a[i]]) by {
      forall k | 0 <= k < |c|
        ensures c[k] < a[i]
      {
        assert c[k] in c;
      }
    }
    hide Ascending;
    assert a[..i + 1] == a[..i] + [a[i]] && b[..j + 1] == b[..j] + [b[j]];
    assert i + 1 < |a| ==> a[i] < a[i + 1] by { NextAscends(a, i); }
    assert j + 1 < |b| ==> b[j] < b[j + 1] by { NextAscends(b, j); }
  }

  lemma NextAscends(s: seq<nat>, i: nat)
    requires Ascending(s)
    ensures i + 1 < |s| ==> s[i] < s[i + 1]
  {
  }

  /** std::set_intersection of two ascending lists. */
  method SetIntersection(a: seq<nat>, b: seq<nat>) returns (c: seq<nat>)
    requires Ascending(a) && Ascending(b)
    ensures Ascending(c) && forall x :: x in c <==> x in a && x in b
  {
    hide Ascending;
    c := [];
    var i, j := 0, 0;
    assert Merged(a, b, i, j, c) by { NothingMerged(a, b); }
    while i < |a| && j < |b|
      invariant Merged(a, b, i, j, c)
      decreases |a| - i + |b| - j
    {
      hide Merged;
      if a[i] < b[j] {
        SkipLeft(a, b, i, j, c);
        i := i + 1;
      } else if b[j] < a[i] {
        SkipRight(a, b, i, j, c);
        j := j + 1;
      } else {
        TakeBoth(a, b, i, j, c);
        c := c + [a[i]];
        i, j := i + 1, j + 1;
      }
    }
    NoneLeft(a, b, i, j);
  }

  lemma NothingMerged(a: seq<nat>, b: seq<nat>)
    ensures Merged(a, b, 0, 0, [])
  {
  }

  lemma NoneLeft(a: seq<nat>, b: seq<nat>, i: nat, j: nat)
    requires Ascending(a) && Ascending(b) && i <= |a| && j <= |b| && (i == |a| || j == |b|)
    requires i < |a| ==> forall x <- b[..j] :: x < a[i]
    requires j < |b| ==> forall x <- a[..i] :: x < b[j]
    ensures forall x :: x in a && x in b ==> x in a[..i] && x in b[..j]
  {
    forall x | x in a && x in b
      ensures x in a[..i] && x in b[..j]
    {
      var k :| 0 <= k < |a| && a[k] == x;
      var l :| 0 <= l < |b| && b[l] == x;
      if i == |a| {
        assert x in a[..i];
        assert l < j ==> b[..j][l] == x;
      } else {
        assert x in b[..j];
        assert k < i ==> a[..i][k] == x;
      }
    }
  }

  /** The documents with every term of the list. */
  ghost predicate HoldsAll(texts: seq<Bytes>, terms: seq<Term>, d: nat) {
    d < |texts| && forall t <- terms :: d in Holders(texts, t)
  }

  ghost predicate DescribeAll(seg: Segment, records: seq<TermRecord>, texts: seq<Bytes>) {
    forall i :: 0 <= i < |records| ==> Describes(seg, records[i], texts, records[i].term)
  }

  function Names(records: seq<TermRecord>): seq<Term> {
    seq(|records|, i requires 0 <= i < |records| => records[i].term)
  }

  /** The candidates of a Segment, in whatever order the term records come: the ascending list of
      the documents with all of the terms. */
  method Candidates(seg: Segment, records: seq<TermRecord>, ghost texts: seq<Bytes>) returns (candidates: seq<nat>)
    requires Indexes(seg, texts) && DescribeAll(seg, records, texts)
    ensures Ascending(candidates)
    ensures forall d :: d in candidates <==> HoldsAll(texts, Names(records), d)
  {
    hide Indexes, Holders;
    SameSize(seg, texts);
    if records == [] {
      candidates := seq<nat>(|seg.documents|, i => i);
      forall d: nat
        ensures d in candidates <==> HoldsAll(texts, Names(records), d)
      {
        assert d < |candidates| ==> candidates[d] == d;
      }
      return;
    }
    assert Describes(seg, records[0], texts, records[0].term);
    candidates := Ids(seg.postings, records[0]);
    var index := 1;
    OneTerm(seg, records, texts);
    while index < |records|
      invariant 1 <= index <= |records| && Ascending(candidates)
      invariant forall d :: d in candidates <==> HoldsAll(texts, Names(records[..index]), d)
    {
      assert Describes(seg, records[index], texts, records[index].term);
      var intersection := SetIntersection(candidates, Ids(seg.postings, records[index]));
      OneMoreTerm(records, index, texts);
      forall d: nat
        ensures d in intersection <==> HoldsAll(texts, Names(records[..index + 1]), d)
      {
        assert d in candidates <==> HoldsAll(texts, Names(records[..index]), d);
      }
      candidates := intersection;
      index := index + 1;
      if candidates == [] {
        forall d: nat
          ensures !HoldsAll(texts, Names(records[..index]), d)
        {
          assert d !in candidates;
        }
        NoCandidates(records, index, texts);
        break;
      }
    }
    assert index == |records| ==> records[..index] == records;
  }

  lemma SameSize(seg: Segment, texts: seq<Bytes>)
    requires Indexes(seg, texts)
    ensures |texts| == |seg.documents|
  {
  }

  lemma OneTerm(seg: Segment, records: seq<TermRecord>, texts: seq<Bytes>)
    requires records != [] && Describes(seg, records[0], texts, records[0].term)
    ensures forall d :: d in Ids(seg.postings, records[0]) <==> HoldsAll(texts, Names(records[..1]), d)
  {
    assert Names(records[..1]) == [records[0].term];
  }

  lemma OneMoreTerm(records: seq<TermRecord>, index: nat, texts: seq<Bytes>)
    requires index < |records|
    ensures forall d :: HoldsAll(texts, Names(records[..index + 1]), d)
                   <==> HoldsAll(texts, Names(records[..index]), d) && d in Holders(texts, records[index].term)
  {
    assert Names(records[..index + 1]) == Names(records[..index]) + [records[index].term];
  }

  lemma NoCandidates(records: seq<TermRecord>, index: nat, texts: seq<Bytes>)
    requires index <= |records| && forall d: nat :: !HoldsAll(texts, Names(records[..index]), d)
    ensures forall d: nat :: !HoldsAll(texts, Names(records), d)
  {
    assert Names(records[..index]) == Names(records)[..index];
    forall d | HoldsAll(texts, Names(records), d)
      ensures HoldsAll(texts, Names(records[..index]), d)
    {
    }
  }
}
