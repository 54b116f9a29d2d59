// loadAtPath: a Segment directory is accepted exactly when it is what the build writes.

module SegmentLoad {
  import opened Common
  import opened ParsedBatches
  import opened SegmentBuild
  import opened SegmentPostings
  import opened SegmentRecords
  import opened SegmentTables
  import opened Terms

  /** kBinaryLimit */
  const BINARY_LIMIT: nat := 2 * 1024 * 1024 * 1024

  /** Size and digest of one file, as the manifest records them. */
  datatype ArtifactFact = ArtifactFact(size: nat, sha256: Bytes)

  datatype Manifest = Manifest(
    formatVersion: nat, batchId: U64, firstArchiveId: U64, lastArchiveId: U64, sourceFileCount: nat,
    parsedFileCount: nat, documentCount: nat, termCount: nat, postingCount: nat, averageLength: real,
    minTime: I64, maxTime: I64,
    files: ArtifactFact, documents: ArtifactFact, postings: ArtifactFact, terms: ArtifactFact)

  /** A Segment directory with its five files. */
  datatype Image = Image(manifest: Manifest, files: Bytes, documents: Bytes, postings: Bytes, terms: Bytes)

  datatype LoadedSegment = LoadedSegment(
    manifest: Manifest, files: seq<FileRecord>, documents: seq<DocumentRecord>, postings: seq<Posting>,
    terms: seq<TermRecord>, lookup: map<Term, nat>)

  // ---------------------------------------------------------------- what the build writes

  function FactOf(content: Bytes, sha: Bytes -> Bytes): ArtifactFact {
    ArtifactFact(|content|, sha(content))
  }

  predicate Serializable(c: SegmentContent) {
    AllWritable(FILES, c.files) && AllWritable(DOCUMENTS, c.documents)
    && AllWritable(POSTINGS, c.postings) && AllWritable(TERMS, c.terms)
  }

  function ImageOf(c: SegmentContent, d: BatchDescriptor, sha: Bytes -> Bytes): Image
    requires Serializable(c) && c.documents != []
  {
    var files, documents := TableBytes(FILES, c.files), TableBytes(DOCUMENTS, c.documents);
    var postings, terms := TableBytes(POSTINGS, c.postings), TableBytes(TERMS, c.terms);
    Image(
      Manifest(FORMAT_VERSION, d.batchId, d.firstArchiveId, d.lastArchiveId, d.sourceFileCount, |c.files|,
               |c.documents|, |c.terms|, |c.postings|, c.totalTerms as real / |c.documents| as real,
               c.minTime, c.maxTime,
               FactOf(files, sha), FactOf(documents, sha), FactOf(postings, sha), FactOf(terms, sha)),
      files, documents, postings, terms)
  }

  // ---------------------------------------------------------------- what loading accepts

  predicate ManifestOk(m: Manifest, expectedBatchId: U64) {
    && m.formatVersion == FORMAT_VERSION && m.batchId == expectedBatchId && m.batchId < 0x1_0000_0000
    && m.firstArchiveId != 0 && m.firstArchiveId <= m.lastArchiveId
    && m.parsedFileCount <= m.sourceFileCount && m.parsedFileCount != 0 && m.documentCount != 0
    && m.termCount != 0 && m.postingCount != 0 && m.averageLength > 0.0 && m.minTime <= m.maxTime
  }

  predicate FactOk(fact: ArtifactFact, content: Bytes, sha: Bytes -> Bytes) {
    && ValidSha256(fact.sha256) && fact.size <= BINARY_LIMIT
    && |content| <= BINARY_LIMIT && |content| == fact.size && sha(content) == fact.sha256
  }

  predicate FactsOk(image: Image, sha: Bytes -> Bytes) {
    var m := image.manifest;
    && FactOk(m.files, image.files, sha) && FactOk(m.documents, image.documents, sha)
    && FactOk(m.postings, image.postings, sha) && FactOk(m.terms, image.terms, sha)
  }

  predicate Close(a: real, b: real) {
    -0.000000001 <= a - b <= 0.000000001
  }

  predicate StatisticsOk(m: Manifest, documents: seq<DocumentRecord>)
    requires documents != []
  {
    && Close(TotalTerms(documents) as real / |documents| as real, m.averageLength)
    && MinTime(documents) == m.minTime && MaxTime(documents) == m.maxTime
  }

  method Statistics(documents: seq<DocumentRecord>) returns (totalTerms: nat, minTime: I64, maxTime: I64)
    ensures totalTerms == TotalTerms(documents) && minTime == MinTime(documents) && maxTime == MaxTime(documents)
  {
    totalTerms, minTime, maxTime := 0, I64_MAX, I64_MIN;
    var i := 0;
    while i < |documents|
      invariant i <= |documents| && totalTerms == TotalTerms(documents[..i])
      invariant minTime == MinTime(documents[..i]) && maxTime == MaxTime(documents[..i])
    {
      assert documents[..i + 1][..i] == documents[..i];
      totalTerms := totalTerms + documents[i].termCount;
      minTime := Min(minTime, documents[i].occurredAt);
      maxTime := Max(maxTime, documents[i].occurredAt);
      i := i + 1;
    }
    assert documents[..i] == documents;
  }

  /** What the four load functions return, one after the other. */
  ghost predicate TablesRead(s: LoadedSegment, image: Image) {
    var m := image.manifest;
    && m.batchId < 0x1_0000_0000 && s.manifest == m
    && Checked(Decode(FILES, image.files, m.parsedFileCount), FilesAccepted) == Some(s.files)
    && Checked(Decode(DOCUMENTS, image.documents, m.documentCount),
               ds => DocumentsAccepted(ds, m.batchId, s.files)) == Some(s.documents)
    && Checked(Decode(POSTINGS, image.postings, m.postingCount),
               ps => PostingsAccepted(ps, |s.documents|)) == Some(s.postings)
    && Checked(Decode(TERMS, image.terms, m.termCount), ts => TermsAccepted(ts, s.postings)) == Some(s.terms)
    && IsLookup(s.lookup, s.terms)
  }

  /** The four load functions in the order of loadAtPath. */
  method LoadTables(image: Image) returns (r: Option<LoadedSegment>)
    requires image.manifest.batchId < 0x1_0000_0000
    ensures r.Some? ==> TablesRead(r.value, image)
    ensures r == None ==> forall s: LoadedSegment :: !TablesRead(s, image)
  {
    hide Decode, FilesAccepted, DocumentsAccepted, PostingsAccepted, TermsAccepted, IsLookup;
    var m := image.manifest;
    var files := LoadFiles(image.files, m.parsedFileCount);
    if files == None {
      return None;
    }
    var documents := LoadDocuments(image.documents, m.documentCount, m.batchId, files.value);
    if documents == None {
      return None;
    }
    var postings := LoadPostings(image.postings, m.postingCount, |documents.value|);
    if postings == None {
      return None;
    }
    var terms, lookup := LoadTerms(image.terms, m.termCount, postings.value);
    if terms == None {
      return None;
    }
    r := Some(LoadedSegment(m, files.value, documents.value, postings.value, terms.value, lookup));
  }

  lemma DecodedCount<T>(t: Table<T>, content: Bytes, count: nat, items: seq<T>)
    requires Decode(t, content, count) == Some(items)
    ensures |items| == count
  {
    DecodedSoFar(t, content, count, count);
  }

  /** The counts of the manifest and the contents of the four files, in one statement. */
  ghost predicate TablesHold(s: LoadedSegment, image: Image) {
    var m := image.manifest;
    && m.batchId < 0x1_0000_0000 && s.manifest == m
    && |s.files| == m.parsedFileCount && |s.documents| == m.documentCount
    && |s.postings| == m.postingCount && |s.terms| == m.termCount
    && AllWritable(FILES, s.files) && image.files == TableBytes(FILES, s.files)
    && AllWritable(DOCUMENTS, s.documents) && image.documents == TableBytes(DOCUMENTS, s.documents)
    && AllWritable(POSTINGS, s.postings) && image.postings == TableBytes(POSTINGS, s.postings)
    && AllWritable(TERMS, s.terms) && image.terms == TableBytes(TERMS, s.terms)
    && FilesAccepted(s.files) && DocumentsAccepted(s.documents, m.batchId, s.files)
    && PostingsAccepted(s.postings, |s.documents|) && TermsAccepted(s.terms, s.postings)
    && IsLookup(s.lookup, s.terms)
  }

  lemma TablesExact(s: LoadedSegment, image: Image)
    ensures TablesRead(s, image) <==> TablesHold(s, image)
  {
    hide Decode, FilesAccepted, DocumentsAccepted, PostingsAccepted, TermsAccepted, TableBytes, AllWritable, IsLookup;
    var m := image.manifest;
    if m.batchId < 0x1_0000_0000 {
      FilesExact(image.files, s.files);
      DocumentsExact(image.documents, s.documents, m.batchId, s.files);
      PostingsExact(image.postings, s.postings, |s.documents|);
      TermsExact(image.terms, s.terms, s.postings);
      if TablesRead(s, image) {
        DecodedCount(FILES, image.files, m.parsedFileCount, s.files);
        DecodedCount(DOCUMENTS, image.documents, m.documentCount, s.documents);
        DecodedCount(POSTINGS, image.postings, m.postingCount, s.postings);
        DecodedCount(TERMS, image.terms, m.termCount, s.terms);
      }
    }
  }

  /** `s` is what the directory holds, and passes every check. The digest of the manifest is the
      manifest itself here; None stands for the empty digest of loadUnpublished. */
  ghost predicate Loads(s: LoadedSegment, image: Image, expectedBatchId: U64, expected: Option<Manifest>,
                        sha: Bytes -> Bytes)
  {
    && (expected.Some? ==> expected.value == image.manifest)
    && ManifestOk(image.manifest, expectedBatchId) && FactsOk(image, sha)
    && TablesHold(s, image) && s.documents != [] && StatisticsOk(image.manifest, s.documents)
  }

  lemma LoadsMean(s: LoadedSegment, image: Image, expectedBatchId: U64, expected: Option<Manifest>, sha: Bytes -> Bytes)
    requires Loads(s, image, expectedBatchId, expected, sha)
    ensures var m := image.manifest;
              && (expected.Some? ==> m == expected.value)
              && m.formatVersion == 1 && m.batchId == expectedBatchId < 0x1_0000_0000
              && 0 < m.firstArchiveId <= m.lastArchiveId && 0 < m.parsedFileCount <= m.sourceFileCount
              && m.averageLength > 0.0 && m.minTime <= m.maxTime
              && sha(image.files) == m.files.sha256 && |image.files| == m.files.size <= 2147483648
              && sha(image.documents) == m.documents.sha256 && |image.documents| == m.documents.size <= 2147483648
              && sha(image.postings) == m.postings.sha256 && |image.postings| == m.postings.size <= 2147483648
              && sha(image.terms) == m.terms.sha256 && |image.terms| == m.terms.size <= 2147483648
              && s.manifest == m && |s.files| == m.parsedFileCount && |s.documents| == m.documentCount > 0
              && |s.postings| == m.postingCount > 0 && |s.terms| == m.termCount > 0
              && AllWritable(FILES, s.files) && image.files == TableBytes(FILES, s.files)
              && AllWritable(DOCUMENTS, s.documents) && image.documents == TableBytes(DOCUMENTS, s.documents)
              && AllWritable(POSTINGS, s.postings) && image.postings == TableBytes(POSTINGS, s.postings)
              && AllWritable(TERMS, s.terms) && image.terms == TableBytes(TERMS, s.terms)
              && MinTime(s.documents) == m.minTime && MaxTime(s.documents) == m.maxTime
              && Close(TotalTerms(s.documents) as real / |s.documents| as real, m.averageLength)
  {
    hide TableBytes, AllWritable, FilesAccepted, DocumentsAccepted, PostingsAccepted, TermsAccepted, IsLookup,
         ValidSha256, TotalTerms, MinTime, MaxTime;
  }

  /** loadAtPath: whatever is loaded is what the four files hold, and these have the sizes and digests of the manifest,
      which is the expected one. */
  method LoadAtPath(image: Image, expectedBatchId: U64, expected: Option<Manifest>, sha: Bytes -> Bytes)
    returns (r: Option<LoadedSegment>)
    ensures r.Some? ==> Loads(r.value, image, expectedBatchId, expected, sha)
    ensures r.Some? ==>
              var m, s := image.manifest, r.value;
              && (expected.Some? ==> m == expected.value)
              && m.formatVersion == 1 && m.batchId == expectedBatchId < 0x1_0000_0000
              && 0 < m.firstArchiveId <= m.lastArchiveId && 0 < m.parsedFileCount <= m.sourceFileCount
              && m.averageLength > 0.0 && m.minTime <= m.maxTime
              && sha(image.files) == m.files.sha256 && |image.files| == m.files.size <= 2147483648
              && sha(image.documents) == m.documents.sha256 && |image.documents| == m.documents.size <= 2147483648
              && sha(image.postings) == m.postings.sha256 && |image.postings| == m.postings.size <= 2147483648
              && sha(image.terms) == m.terms.sha256 && |image.terms| == m.terms.size <= 2147483648
              && s.manifest == m && |s.files| == m.parsedFileCount && |s.documents| == m.documentCount > 0
              && |s.postings| == m.postingCount > 0 && |s.terms| == m.termCount > 0
              && AllWritable(FILES, s.files) && image.files == TableBytes(FILES, s.files)
              && AllWritable(DOCUMENTS, s.documents) && image.documents == TableBytes(DOCUMENTS, s.documents)
              && AllWritable(POSTINGS, s.postings) && image.postings == TableBytes(POSTINGS, s.postings)
              && AllWritable(TERMS, s.terms) && image.terms == TableBytes(TERMS, s.terms)
              && MinTime(s.documents) == m.minTime && MaxTime(s.documents) == m.maxTime
              && Close(TotalTerms(s.documents) as real / |s.documents| as real, m.averageLength)
    ensures r == None ==> forall s: LoadedSegment :: !Loads(s, image, expectedBatchId, expected, sha)
  {
    hide TablesRead, TablesHold, FactsOk, StatisticsOk, TotalTerms, MinTime, MaxTime, TableBytes, AllWritable, Close;
    forall s: LoadedSegment
      ensures TablesRead(s, image) <==> TablesHold(s, image)
    {
      TablesExact(s, image);
    }
    if expected.Some? && image.manifest != expected.value {
      return None;
    }
    if !ManifestOk(image.manifest, expectedBatchId) || !FactsOk(image, sha) {
      return None;
    }
    r := LoadTables(image);
    if r == None {
      return;
    }
    CountOfDocuments(r.value, image);
    var totalTerms, minTime, maxTime := Statistics(r.value.documents);
    var average := totalTerms as real / |r.value.documents| as real;
    StatisticsAre(image.manifest, r.value.documents);
    if || !Close(average, image.manifest.averageLength)
       || minTime != image.manifest.minTime || maxTime != image.manifest.maxTime {
      forall s: LoadedSegment | TablesHold(s, image)
        ensures s == r.value
      {
        OneSegment(s, r.value, image);
      }
      r := None;
    } else {
      LoadsMean(r.value, image, expectedBatchId, expected, sha);
    }
  }

  lemma CountOfDocuments(s: LoadedSegment, image: Image)
    requires TablesHold(s, image) && image.manifest.documentCount != 0
    ensures s.documents != []
  {
  }

  lemma StatisticsAre(m: Manifest, documents: seq<DocumentRecord>)
    requires documents != []
    ensures StatisticsOk(m, documents)
       <==> && Close(TotalTerms(documents) as real / |documents| as real, m.averageLength)
            && MinTime(documents) == m.minTime && MaxTime(documents) == m.maxTime
  {
  }

  /** A directory holds at most one Segment. */
  lemma OneSegment(s: LoadedSegment, t: LoadedSegment, image: Image)
    requires TablesHold(s, image) && TablesHold(t, image)
    ensures s == t
  {
    hide Decode, FilesAccepted, DocumentsAccepted, PostingsAccepted, TermsAccepted, TablesHold, IsLookup;
    TablesExact(s, image);
    TablesExact(t, image);
    LookupUnique(s.lookup, t.lookup, s.terms);
  }

  // ---------------------------------------------------------------- a build loads

  ghost predicate Built(c: SegmentContent, storage: Storage, sha: Bytes -> Bytes, b: ParsedBatch) {
    BatchOk(b) && Buildable(storage, sha, b) && IsBuilt(c, storage, b)
  }

  lemma SomeDocument(c: SegmentContent, storage: Storage, sha: Bytes -> Bytes, b: ParsedBatch)
    requires Built(c, storage, sha, b)
    ensures c.documents != []
  {
  }

  lemma BuiltFiles(c: SegmentContent, storage: Storage, sha: Bytes -> Bytes, b: ParsedBatch)
    requires Built(c, storage, sha, b)
    ensures FilesAccepted(c.files) && c.files != []
  {
    hide DocumentsOk, CountsOk, Buildable, TermsAccepted, Unflatten, FromRows, TotalTerms, MinTime, MaxTime, IsDocument,
         ValidSha256, Inverted;
  }

  lemma BuiltDocumentOk(c: SegmentContent, storage: Storage, sha: Bytes -> Bytes, b: ParsedBatch, i: nat)
    requires Built(c, storage, sha, b) && i < |c.documents|
    ensures SegmentRecords.DocumentOk(c.documents[i], i, b.descriptor.batchId, c.files)
  {
    hide FilesOk, DocumentsOk, CountsOk, TermsAccepted, Unflatten, FromRows, TotalTerms, MinTime, MaxTime, Inverted,
         TextOf, Intact, TermCountsOk;
    DocumentReadable(storage, sha, b, i);
    assert IsDocument(c.documents[i], b, i);
  }

  lemma BuiltPostings(c: SegmentContent, storage: Storage, sha: Bytes -> Bytes, b: ParsedBatch)
    requires Built(c, storage, sha, b)
    ensures PostingsAccepted(c.postings, |c.documents|)
  {
    hide *;
    BuiltRows(c, storage, sha, b);
    forall i | 0 <= i < |c.postings|
      ensures PostingOk(c.postings[i], |c.documents|)
    {
      PostingFrom(c.postings, Texts(storage, b), i);
      PostingIsOk(c.postings[i], |c.documents|);
    }
    PostingsAreOk(c.postings, |c.documents|);
  }

  lemma BuiltRows(c: SegmentContent, storage: Storage, sha: Bytes -> Bytes, b: ParsedBatch)
    requires Built(c, storage, sha, b)
    ensures FromRows(c.postings, Inverted(Texts(storage, b))) && |c.documents| == |Texts(storage, b)|
  {
    hide BatchOk, Buildable, TermsAccepted, Unflatten, TotalTerms, MinTime, MaxTime, IsDocument, Inverted, FromRows;
  }

  predicate PostingOk(p: Posting, documentCount: nat) {
    p.localId < documentCount && p.frequency != 0
  }

  lemma PostingIsOk(p: Posting, documentCount: nat)
    requires p.localId < documentCount && p.frequency != 0
    ensures PostingOk(p, documentCount)
  {
  }

  lemma PostingsAreOk(postings: seq<Posting>, documentCount: nat)
    requires forall i :: 0 <= i < |postings| ==> PostingOk(postings[i], documentCount)
    ensures PostingsAccepted(postings, documentCount)
  {
  }

  lemma {:induction false} TimesInOrder(documents: seq<DocumentRecord>)
    requires documents != []
    ensures MinTime(documents) <= documents[|documents| - 1].occurredAt <= MaxTime(documents)
  {
  }

  /** There is a term, so some document counts one. */
  lemma BuiltTotal(c: SegmentContent, storage: Storage, sha: Bytes -> Bytes, b: ParsedBatch)
    requires Built(c, storage, sha, b)
    ensures c.totalTerms > 0 && c.terms != [] && c.postings != []
  {
    hide BatchOk, TermsAccepted, Unflatten, FromRows, MinTime, MaxTime, Tokens, Count, AllIntact;
    var texts := Texts(storage, b);
    EmptyIndex(c.terms, c.postings);
    var t :| t in Inverted(texts);
    var d :| 0 <= d < |texts| && t in Tokens(texts[d]);
    assert IsDocument(c.documents[d], b, d);
    assert |Tokens(texts[d])| == c.documents[d].termCount;
    TotalAtLeast(c.documents, d);
  }

  lemma {:induction false} TotalAtLeast(documents: seq<DocumentRecord>, d: nat)
    requires d < |documents|
    ensures TotalTerms(documents) >= documents[d].termCount
  {
    if d < |documents| - 1 {
      TotalAtLeast(documents[..|documents| - 1], d);
    }
  }

  ghost predicate WithinLimits(image: Image) {
    && |image.files| <= BINARY_LIMIT && |image.documents| <= BINARY_LIMIT
    && |image.postings| <= BINARY_LIMIT && |image.terms| <= BINARY_LIMIT
  }

  ghost predicate LoadsAsBuilt(c: SegmentContent, d: BatchDescriptor, sha: Bytes -> Bytes)
    requires Serializable(c) && c.documents != []
  {
    var image := ImageOf(c, d, sha);
    Loads(LoadedSegment(image.manifest, c.files, c.documents, c.postings, c.terms, LookupOf(c.terms)), image, d.batchId,
          Some(image.manifest), sha)
  }

  /** What a build of a checked batch writes passes every check of loading, and loads as what was
      built, exactly when no file is over the size limit. */
  lemma BuiltSegmentLoads(c: SegmentContent, storage: Storage, sha: Bytes -> Bytes, b: ParsedBatch)
    requires Built(c, storage, sha, b) && Serializable(c)
    requires forall x: Bytes :: ValidSha256(sha(x))
    ensures LoadsAsBuilt(c, b.descriptor, sha)
       <==> WithinLimits(ImageOf(c, b.descriptor, sha))
  {
    hide TableBytes, AllWritable, ValidSha256, IsLookup, LookupOf, Inverted, Unflatten, FromRows, TermsAccepted,
         TotalTerms, MinTime, MaxTime, IsDocument, FilesAccepted, DocumentsAccepted, PostingsAccepted, DocumentsOk,
         CountsOk, AllIntact, TermCountsOk;
    var image := ImageOf(c, b.descriptor, sha);
    BuiltFiles(c, storage, sha, b);
    BuiltDocuments(c, storage, sha, b);
    BuiltPostings(c, storage, sha, b);
    BuiltTotal(c, storage, sha, b);
    TimesInOrder(c.documents);
    AcceptedLookup(c.terms, c.postings);
  }

  /** More than 268435453 postings make postings.bin too large: such a batch is built but refused. */
  lemma TooManyPostings(c: SegmentContent, storage: Storage, sha: Bytes -> Bytes, b: ParsedBatch)
    requires Built(c, storage, sha, b) && Serializable(c) && |c.postings| > 268435453
    requires forall x: Bytes :: ValidSha256(sha(x))
    ensures !LoadsAsBuilt(c, b.descriptor, sha)
  {
    hide Built, TableBytes, AllWritable, LoadsAsBuilt;
    assert AllWritable(POSTINGS, c.postings);
    PostingsSize(c.postings);
    BuiltSegmentLoads(c, storage, sha, b);
  }

  lemma BuiltDocuments(c: SegmentContent, storage: Storage, sha: Bytes -> Bytes, b: ParsedBatch)
    requires Built(c, storage, sha, b)
    ensures DocumentsAccepted(c.documents, b.descriptor.batchId, c.files)
  {
    hide BatchOk, IsBuilt, SegmentRecords.DocumentOk;
    forall i | 0 <= i < |c.documents|
      ensures SegmentRecords.DocumentOk(c.documents[i], i, b.descriptor.batchId, c.files)
    {
      BuiltDocumentOk(c, storage, sha, b, i);
    }
  }

  /** The rest of SegmentStore::build: serialization, and the self-check before the rename. */
  method Publish(c: SegmentContent, ghost storage: Storage, sha: Bytes -> Bytes, b: ParsedBatch)
    returns (r: Option<Image>)
    requires Built(c, storage, sha, b)
    requires |c.files| < 0x1_0000_0000_0000_0000 && |c.documents| < 0x1_0000_0000_0000_0000
    requires |c.postings| < 0x1_0000_0000_0000_0000 && |c.terms| < 0x1_0000_0000_0000_0000
    requires forall x: Bytes :: ValidSha256(sha(x))
    ensures r.Some? <==> Serializable(c) && WithinLimits(ImageOf(c, b.descriptor, sha))
    ensures r.Some? ==> r.value == ImageOf(c, b.descriptor, sha)
  {
    hide Built, TableBytes, AllWritable, Loads, Faithful, ValidSha256, WithinLimits;
    FilesFaithful();
    DocumentsFaithful();
    PostingsFaithful();
    TermsFaithful();
    var files := Serialize(FILES, c.files);
    var documents := Serialize(DOCUMENTS, c.documents);
    var postings := Serialize(POSTINGS, c.postings);
    var terms := Serialize(TERMS, c.terms);
    if files == None || documents == None || postings == None || terms == None {
      return None;
    }
    SomeDocument(c, storage, sha, b);
    var d := b.descriptor;
    var image := Image(
      Manifest(FORMAT_VERSION, d.batchId, d.firstArchiveId, d.lastArchiveId, d.sourceFileCount, |c.files|,
               |c.documents|, |c.terms|, |c.postings|, c.totalTerms as real / |c.documents| as real,
               c.minTime, c.maxTime,
               FactOf(files.value, sha), FactOf(documents.value, sha), FactOf(postings.value, sha),
               FactOf(terms.value, sha)),
      files.value, documents.value, postings.value, terms.value);
    assert image == ImageOf(c, d, sha);
    BuiltSegmentLoads(c, storage, sha, b);
    var loaded := LoadAtPath(image, d.batchId, Some(image.manifest), sha);
    if loaded == None {
      return None;
    }
    LoadedIsBuilt(c, storage, sha, b, loaded.value);
    r := Some(image);
  }

  /** If the directory of a build loads at all, it loads as what was built. */
  lemma LoadedIsBuilt(c: SegmentContent, storage: Storage, sha: Bytes -> Bytes, b: ParsedBatch, s: LoadedSegment)
    requires Built(c, storage, sha, b) && Serializable(c)
    requires forall x: Bytes :: ValidSha256(sha(x))
    requires var image := ImageOf(c, b.descriptor, sha);
             Loads(s, image, b.descriptor.batchId, Some(image.manifest), sha)
    ensures LoadsAsBuilt(c, b.descriptor, sha)
  {
    hide Built, TableBytes, AllWritable, ValidSha256, StatisticsOk, TablesHold;
    assert WithinLimits(ImageOf(c, b.descriptor, sha));
    BuiltSegmentLoads(c, storage, sha, b);
  }
}
