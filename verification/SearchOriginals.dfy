// From the archived files to the answer: a search over loaded Segments is a scan of the original documents.

module SearchOriginals {
  import opened BuiltIndex
  import opened Common
  import opened ParsedBatches
  import opened SearchEngine
  import opened SearchHits
  import opened SearchIndex
  import opened SearchPages
  import opened SearchTop
  import opened SegmentBuild
  import opened SegmentLoad
  import opened SegmentPostings
  import opened SegmentRecords
  import opened SegmentTables
  import opened Terms

  /** `s` was loaded from the directory that a build of the batch published. */
  ghost predicate LoadedFrom(s: LoadedSegment, storage: Storage, sha: Bytes -> Bytes, b: ParsedBatch) {
    exists c: SegmentContent :: PublishedAs(c, s, storage, sha, b)
  }

  ghost predicate PublishedAs(c: SegmentContent, s: LoadedSegment, storage: Storage, sha: Bytes -> Bytes,
                              b: ParsedBatch)
  {
    && Built(c, storage, sha, b) && Serializable(c)
    && var image := ImageOf(c, b.descriptor, sha);
       Loads(s, image, b.descriptor.batchId, Some(image.manifest), sha)
  }

  /** What the snapshot keeps of a loaded Segment. */
  function SegmentOf(s: LoadedSegment): Segment
    requires s.manifest.batchId < 0x1_0000_0000
  {
    Segment(s.manifest.batchId, s.files, s.documents, s.terms, s.postings, s.lookup)
  }

  /** A published Segment, loaded again, indexes exactly the texts of its batch. */
  lemma LoadedIndexes(s: LoadedSegment, storage: Storage, sha: Bytes -> Bytes, b: ParsedBatch)
    requires LoadedFrom(s, storage, sha, b) && forall x: Bytes :: ValidSha256(sha(x))
    ensures s.manifest.batchId == b.descriptor.batchId < 0x1_0000_0000 && b.descriptor.batchId != 0
    ensures Indexes(SegmentOf(s), Texts(storage, b))
  {
    hide PublishedAs, Indexes, Texts, Built;
    var c :| PublishedAs(c, s, storage, sha, b);
    SameContent(c, storage, sha, b, s);
    BuiltSegmentIndexes(c, storage, sha, b, s.lookup);
  }

  lemma SameContent(c: SegmentContent, storage: Storage, sha: Bytes -> Bytes, b: ParsedBatch, s: LoadedSegment)
    requires PublishedAs(c, s, storage, sha, b) && forall x: Bytes :: ValidSha256(sha(x))
    ensures Built(c, storage, sha, b)
    ensures s.manifest.batchId == b.descriptor.batchId != 0 && b.descriptor.batchId < 0x1_0000_0000
    ensures s.files == c.files && s.documents == c.documents && s.postings == c.postings && s.terms == c.terms
    ensures IsLookup(s.lookup, c.terms)
  {
    hide Built, TableBytes, AllWritable, ValidSha256, StatisticsOk, FilesAccepted, DocumentsAccepted, PostingsAccepted,
         TermsAccepted, IsLookup;
    BatchNamed(c, storage, sha, b);
    LoadedIsBuilt(c, storage, sha, b, s);
    var image := ImageOf(c, b.descriptor, sha);
    OneSegment(s, LoadedSegment(image.manifest, c.files, c.documents, c.postings, c.terms, LookupOf(c.terms)), image);
  }

  lemma BatchNamed(c: SegmentContent, storage: Storage, sha: Bytes -> Bytes, b: ParsedBatch)
    requires Built(c, storage, sha, b)
    ensures 0 < b.descriptor.batchId < 0x1_0000_0000 && c.documents != []
  {
  }

  // ---------------------------------------------------------------- snapshots of loaded Segments

  /** Segments of different batches, in the order of the batch ids, as refreshSnapshot loads them. */
  ghost predicate AllLoaded(loaded: seq<LoadedSegment>, batches: seq<ParsedBatch>, storage: Storage,
                            sha: Bytes -> Bytes)
  {
    && |loaded| == |batches| && (forall x: Bytes :: ValidSha256(sha(x)))
    && (forall s :: 0 <= s < |loaded| ==> LoadedFrom(loaded[s], storage, sha, batches[s]))
    && (forall s, r :: 0 <= s < r < |batches| ==> batches[s].descriptor.batchId < batches[r].descriptor.batchId)
    && forall s :: 0 <= s < |loaded| ==> loaded[s].manifest.batchId < 0x1_0000_0000
  }

  function SnapshotOf(loaded: seq<LoadedSegment>): Snapshot
    requires forall s :: 0 <= s < |loaded| ==> loaded[s].manifest.batchId < 0x1_0000_0000
  {
    seq(|loaded|, s requires 0 <= s < |loaded| => SegmentOf(loaded[s]))
  }

  function CorpusOf(storage: Storage, batches: seq<ParsedBatch>): Corpus {
    seq(|batches|, s requires 0 <= s < |batches| => Texts(storage, batches[s]))
  }

  lemma LoadedSnapshot(loaded: seq<LoadedSegment>, batches: seq<ParsedBatch>, storage: Storage, sha: Bytes -> Bytes)
    requires AllLoaded(loaded, batches, storage, sha)
    ensures SnapshotOk(SnapshotOf(loaded), CorpusOf(storage, batches))
  {
    hide LoadedFrom, Indexes, Texts, ValidSha256;
    forall s | 0 <= s < |loaded|
      ensures Indexes(SegmentOf(loaded[s]), Texts(storage, batches[s]))
      ensures loaded[s].manifest.batchId == batches[s].descriptor.batchId != 0
    {
      LoadedIndexes(loaded[s], storage, sha, batches[s]);
    }
  }

  /** A search over loaded Segments returns the page of the scan of the texts in the archived files. */
  method SearchLoaded(loaded: seq<LoadedSegment>, ghost batches: seq<ParsedBatch>, ghost storage: Storage,
                      ghost sha: Bytes -> Bytes, q: SearchQuery, idf: (nat, nat) -> real)
    returns (r: Option<SearchPage>)
    requires AllLoaded(loaded, batches, storage, sha)
    ensures SnapshotOk(SnapshotOf(loaded), CorpusOf(storage, batches))
    ensures r == None <==> q.pageSize == 0 || q.offset + q.pageSize > 1000
    ensures r.Some? ==> r.value == PageOf(SnapshotOf(loaded), CorpusOf(storage, batches), q, idf)
    ensures r.Some? ==>
              var hits := AllHits(SnapshotOf(loaded), CorpusOf(storage, batches), q, idf);
              r.value.totalHits == |hits| && IsPage(r.value.items, hits, q.offset, q.pageSize)
  {
    hide LoadedFrom, SnapshotOk, Texts, PageOf, IsPage;
    LoadedSnapshot(loaded, batches, storage, sha);
    r := Search(SnapshotOf(loaded), CorpusOf(storage, batches), q, idf);
  }

  /** Document `i` of a batch stands in the archived file of its archive, between its offsets. */
  ghost predicate OriginalText(storage: Storage, b: ParsedBatch, i: nat, text: Bytes) {
    && i < |b.documents|
    && exists k :: 0 <= k < |b.files| && StandsIn(storage, b.files[k].archive, b.documents[i], text)
  }

  predicate StandsIn(storage: Storage, a: ArchiveRecord, d: ParsedDocument, text: Bytes) {
    && a.archiveId == d.archiveId && a.relativePath in storage
    && d.byteOffset + d.byteLength <= |storage[a.relativePath]|
    && text == storage[a.relativePath][d.byteOffset..d.byteOffset + d.byteLength]
  }

  lemma TextIsOriginal(s: LoadedSegment, storage: Storage, sha: Bytes -> Bytes, b: ParsedBatch, i: nat)
    requires LoadedFrom(s, storage, sha, b) && i < |b.documents|
    ensures OriginalText(storage, b, i, Texts(storage, b)[i])
  {
    hide Loads, TableBytes, AllWritable, FilesOk, DocumentsOk, CountsOk, Inverted, TermCountsOk, IsBuilt;
    var c :| PublishedAs(c, s, storage, sha, b);
    DocumentReadable(storage, sha, b, i);
    var k := OrdinalOf(b.files, b.documents[i].archiveId);
    assert StandsIn(storage, b.files[k].archive, b.documents[i], Texts(storage, b)[i]);
  }

  /** The hits are exactly the documents whose bytes in the archived files contain every term of the query and whose
      record is what each of its filters asks for. */
  lemma HitsAreOriginals(loaded: seq<LoadedSegment>, batches: seq<ParsedBatch>, storage: Storage, sha: Bytes -> Bytes,
                         q: SearchQuery, s: nat, i: nat, text: Bytes)
    requires AllLoaded(loaded, batches, storage, sha) && s < |batches| && i < |batches[s].documents|
    requires OriginalText(storage, batches[s], i, text)
    ensures i < |loaded[s].documents|
    ensures var d := loaded[s].documents[i];
            IsHit(SnapshotOf(loaded), CorpusOf(storage, batches), q, s, i) <==>
              && (forall k, t :: 0 <= k < |q.keywords| && t in Tokens(q.keywords[k]) ==> t in Tokens(text))
              && (q.lineId == [] || d.lineId == q.lineId) && (q.stationId == [] || d.stationId == q.stationId)
              && (q.deviceId == [] || d.deviceId == q.deviceId) && (q.workOrder == [] || d.workOrder == q.workOrder)
              && (q.productSn == [] || d.productSn == q.productSn) && (q.levels == [] || d.level in q.levels)
              && (q.moduleName == [] || d.moduleName == q.moduleName)
              && (q.errorCode == [] || d.errorCode == q.errorCode)
              && (q.hasTimeRange ==> q.occurredFrom <= d.occurredAt <= q.occurredTo)
              && (q.anomalyOnly ==> d.level == Ascii("WARN") || d.level == Ascii("ERROR") || d.errorCode != [])
  {
    hide LoadedFrom, SnapshotOk, Texts, QueryTerms, Tokens, MatchesFilters, OriginalText;
    LoadedSnapshot(loaded, batches, storage, sha);
    var snapshot, corpus := SnapshotOf(loaded), CorpusOf(storage, batches);
    SameLength(snapshot, corpus);
    assert snapshot[s] == SegmentOf(loaded[s]) && corpus[s] == Texts(storage, batches[s]);
    assert |snapshot[s].documents| == |corpus[s]|;
    TextIsOriginal(loaded[s], storage, sha, batches[s], i);
    OneText(loaded[s], storage, sha, batches[s], i, text, Texts(storage, batches[s])[i]);
    FiltersMean(loaded[s].documents[i], q);
    TermsMean(q, text);
  }

  lemma FiltersMean(d: DocumentRecord, q: SearchQuery)
    ensures MatchesFilters(d, q)
       <==> && (q.lineId == [] || d.lineId == q.lineId) && (q.stationId == [] || d.stationId == q.stationId)
            && (q.deviceId == [] || d.deviceId == q.deviceId) && (q.workOrder == [] || d.workOrder == q.workOrder)
            && (q.productSn == [] || d.productSn == q.productSn) && (q.levels == [] || d.level in q.levels)
            && (q.moduleName == [] || d.moduleName == q.moduleName)
            && (q.errorCode == [] || d.errorCode == q.errorCode)
            && (q.hasTimeRange ==> q.occurredFrom <= d.occurredAt <= q.occurredTo)
            && (q.anomalyOnly ==> d.level == Ascii("WARN") || d.level == Ascii("ERROR") || d.errorCode != [])
  {
  }

  lemma TermsMean(q: SearchQuery, text: Bytes)
    ensures (forall t <- QueryTerms(q.keywords) :: t in Tokens(text))
       <==> forall k, t :: 0 <= k < |q.keywords| && t in Tokens(q.keywords[k]) ==> t in Tokens(text)
  {
    hide Tokens;
  }

  /** A document has one original text. */
  lemma OneText(s: LoadedSegment, storage: Storage, sha: Bytes -> Bytes, b: ParsedBatch, i: nat, x: Bytes, y: Bytes)
    requires LoadedFrom(s, storage, sha, b) && OriginalText(storage, b, i, x) && OriginalText(storage, b, i, y)
    ensures x == y
  {
    hide Loads, TableBytes, AllWritable, DocumentsOk, CountsOk, Inverted, TermCountsOk, IsBuilt, AllIntact, FileRowOk;
    var c :| PublishedAs(c, s, storage, sha, b);
    var j :| 0 <= j < |b.files| && StandsIn(storage, b.files[j].archive, b.documents[i], x);
    var k :| 0 <= k < |b.files| && StandsIn(storage, b.files[k].archive, b.documents[i], y);
    assert j == k;
  }
}
