// SegmentStore::build, from a checked parsed batch and the archived bytes to the tables of a Segment.

module SegmentBuild {
  import opened Common
  import opened ParsedBatches
  import opened SegmentPostings
  import opened SegmentRecords
  import opened SegmentTables
  import opened Terms

  /** The archive directory: relative path to bytes. */
  type Storage = map<Bytes, Bytes>

  /** The tables of a Segment and the statistics of its manifest. */
  datatype SegmentContent = SegmentContent(
    files: seq<FileRecord>, documents: seq<DocumentRecord>, terms: seq<TermRecord>, postings: seq<Posting>,
    totalTerms: nat, minTime: I64, maxTime: I64)

  const I64_MIN: I64 := -0x8000_0000_0000_0000
  const I64_MAX: I64 := 0x7FFF_FFFF_FFFF_FFFF

  function FileOfArchive(a: ArchiveRecord): FileRecord {
    FileRecord(a.archiveId, a.fileSize, a.sha256, a.relativePath)
  }

  /** verifyOriginalArchive: the archived bytes still have the recorded size and digest. */
  predicate Intact(storage: Storage, sha: Bytes -> Bytes, f: FileRecord) {
    f.path in storage && |storage[f.path]| == f.fileSize && sha(storage[f.path]) == f.sha256
  }

  predicate AllIntact(storage: Storage, sha: Bytes -> Bytes, files: seq<ParsedFile>) {
    forall k :: 0 <= k < |files| ==> Intact(storage, sha, FileOfArchive(files[k].archive))
  }

  lemma IntactMeans(storage: Storage, sha: Bytes -> Bytes, files: seq<ParsedFile>)
    requires AllIntact(storage, sha, files)
    ensures forall k :: 0 <= k < |files| ==>
              var a := files[k].archive;
              && a.relativePath in storage && |storage[a.relativePath]| == a.fileSize
              && sha(storage[a.relativePath]) == a.sha256
  {
  }

  /** Which file a document belongs to. */
  function OrdinalOf(files: seq<ParsedFile>, archiveId: U64): nat {
    if files == [] then 0
    else if files[|files| - 1].archive.archiveId == archiveId then |files| - 1
    else OrdinalOf(files[..|files| - 1], archiveId)
  }

  lemma {:induction false} OrdinalFound(files: seq<ParsedFile>, archiveId: U64, k: nat)
    requires k < |files| && files[k].archive.archiveId == archiveId
    requires forall i, j :: 0 <= i < j < |files| ==> files[i].archive.archiveId != files[j].archive.archiveId
    ensures OrdinalOf(files, archiveId) == k
  {
    if k < |files| - 1 {
      OrdinalFound(files[..|files| - 1], archiveId, k);
    }
  }

  /** The bytes of a document in its archive. */
  function TextOf(storage: Storage, files: seq<ParsedFile>, d: ParsedDocument): Bytes {
    var k := OrdinalOf(files, d.archiveId);
    if k >= |files| || files[k].archive.relativePath !in storage then []
    else
      var content := storage[files[k].archive.relativePath];
      if d.byteOffset + d.byteLength <= |content| then content[d.byteOffset..d.byteOffset + d.byteLength] else []
  }

  function Texts(storage: Storage, b: ParsedBatch): (texts: seq<Bytes>)
    ensures |texts| == |b.documents|
  {
    seq(|b.documents|, i requires 0 <= i < |b.documents| => TextOf(storage, b.files, b.documents[i]))
  }

  function BuiltDocument(batchId: U32, files: seq<ParsedFile>, d: ParsedDocument): DocumentRecord
    requires DocumentRowOk(d) && OrdinalOf(files, d.archiveId) < 0x1_0000_0000
  {
    DocumentRecord(
      batchId * 0x1_0000_0000 + d.localId, d.localId, OrdinalOf(files, d.archiveId), d.archiveId,
      d.byteOffset, d.byteLength, d.occurredAt, d.archivedAt, d.termCount,
      d.lineId, d.stationId, d.deviceId, d.collectorId, d.workOrder, d.productSn, d.sourceType, d.level,
      d.moduleName, d.errorCode, d.eventName)
  }

  /** The record repeats what was parsed. */
  predicate Repeats(r: DocumentRecord, d: ParsedDocument, batchId: nat) {
    && r.docId == batchId * 0x1_0000_0000 + d.localId && r.localId == d.localId && r.archiveId == d.archiveId
    && r.byteOffset == d.byteOffset && r.byteLength == d.byteLength && r.termCount == d.termCount
    && r.occurredAt == d.occurredAt && r.archivedAt == d.archivedAt
    && r.lineId == d.lineId && r.stationId == d.stationId && r.deviceId == d.deviceId
    && r.collectorId == d.collectorId && r.workOrder == d.workOrder && r.productSn == d.productSn
    && r.sourceType == d.sourceType && r.level == d.level && r.moduleName == d.moduleName
    && r.errorCode == d.errorCode && r.eventName == d.eventName
  }

  lemma BuiltRepeats(batchId: U32, files: seq<ParsedFile>, d: ParsedDocument)
    requires DocumentRowOk(d) && OrdinalOf(files, d.archiveId) < 0x1_0000_0000
    ensures Repeats(BuiltDocument(batchId, files, d), d, batchId)
  {
  }

  function TotalTerms(documents: seq<DocumentRecord>): nat {
    if documents == [] then 0
    else TotalTerms(documents[..|documents| - 1]) + documents[|documents| - 1].termCount
  }

  function MinTime(documents: seq<DocumentRecord>): I64 {
    if documents == [] then I64_MAX
    else Min(MinTime(documents[..|documents| - 1]), documents[|documents| - 1].occurredAt)
  }

  function MaxTime(documents: seq<DocumentRecord>): I64 {
    if documents == [] then I64_MIN
    else Max(MaxTime(documents[..|documents| - 1]), documents[|documents| - 1].occurredAt)
  }

  // ---------------------------------------------------------------- what a build does

  /** Every document still has the number of terms that the parser counted. */
  predicate TermCountsOk(storage: Storage, b: ParsedBatch) {
    forall i :: 0 <= i < |b.documents| ==> |Tokens(Texts(storage, b)[i])| == b.documents[i].termCount
  }

  /** Everything a build checks before it serializes. */
  ghost predicate Buildable(storage: Storage, sha: Bytes -> Bytes, b: ParsedBatch) {
    && b.descriptor.batchId < 0x1_0000_0000 && b.documents != []
    && AllIntact(storage, sha, b.files) && TermCountsOk(storage, b)
    && Inverted(Texts(storage, b)) != map[]
    && forall t <- Inverted(Texts(storage, b)) :: |Inverted(Texts(storage, b))[t]| < 0x1_0000_0000
  }

  /** What a build produces. */
  ghost predicate IsBuilt(c: SegmentContent, storage: Storage, b: ParsedBatch)
    requires BatchOk(b) && b.descriptor.batchId < 0x1_0000_0000
  {
    && |c.files| == |b.files|
    && (forall k :: 0 <= k < |b.files| ==> c.files[k] == FileOfArchive(b.files[k].archive))
    && |c.documents| == |b.documents|
    && (forall i :: 0 <= i < |b.documents| ==> IsDocument(c.documents[i], b, i))
    && TermsAccepted(c.terms, c.postings)
    && Unflatten(c.terms, c.postings) == Inverted(Texts(storage, b))
    && FromRows(c.postings, Inverted(Texts(storage, b)))
    && c.totalTerms == TotalTerms(c.documents)
    && c.minTime == MinTime(c.documents) && c.maxTime == MaxTime(c.documents)
  }

  ghost predicate IsDocument(d: DocumentRecord, b: ParsedBatch, i: nat)
    requires i < |b.documents| && b.descriptor.batchId < 0x1_0000_0000
  {
    && DocumentRowOk(b.documents[i]) && OrdinalOf(b.files, b.documents[i].archiveId) < 0x1_0000_0000
    && d == BuiltDocument(b.descriptor.batchId, b.files, b.documents[i])
  }

  /** The first loop of the build. */
  method VerifyFiles(files: seq<ParsedFile>, storage: Storage, sha: Bytes -> Bytes)
    returns (ok: bool, records: seq<FileRecord>, ordinals: map<U64, nat>)
    requires forall i, j :: 0 <= i < j < |files| ==> files[i].archive.archiveId != files[j].archive.archiveId
    ensures ok == AllIntact(storage, sha, files)
    ensures ok ==> |records| == |files|
    ensures ok ==> forall k :: 0 <= k < |files| ==> records[k] == FileOfArchive(files[k].archive)
    ensures ok ==> AreOrdinals(ordinals, files)
  {
    records, ordinals := [], map[];
    var index := 0;
    while index < |files|
      invariant index <= |files| == |files| && |records| == index
      invariant forall k :: 0 <= k < index ==> Intact(storage, sha, FileOfArchive(files[k].archive))
      invariant forall k :: 0 <= k < index ==> records[k] == FileOfArchive(files[k].archive)
      invariant AreOrdinals(ordinals, files[..index])
    {
      assert files[..index + 1] == files[..index] + [files[index]];
      var file := FileOfArchive(files[index].archive);
      if !Intact(storage, sha, file) {
        return false, records, ordinals;
      }
      ordinals := ordinals[file.archiveId := index];
      records := records + [file];
      index := index + 1;
    }
    assert files[..index] == files;
    ok := true;
  }

  /** readOriginalRecord: the pread of one document; None is the exception. */
  method ReadOriginalRecord(storage: Storage, f: FileRecord, offset: U64, length: U64) returns (r: Option<Bytes>)
    ensures r.Some? <==> && length != 0 && offset <= f.fileSize && length <= f.fileSize - offset
                         && f.path in storage && |storage[f.path]| == f.fileSize
    ensures r.Some? ==> r.value == storage[f.path][offset..offset + length]
  {
    if length == 0 || offset > f.fileSize || length > f.fileSize - offset {
      return None;
    }
    if f.path !in storage || |storage[f.path]| != f.fileSize {
      return None;
    }
    r := Some(storage[f.path][offset..offset + length]);
  }

  /** In a checked batch with intact archives every document can be read. */
  lemma DocumentReadable(storage: Storage, sha: Bytes -> Bytes, b: ParsedBatch, i: nat)
    requires BatchOk(b) && AllIntact(storage, sha, b.files) && i < |b.documents|
    ensures var d := b.documents[i];
            var k := OrdinalOf(b.files, d.archiveId);
            && DocumentRowOk(d) && d.localId == i && k < |b.files| && Matches(d, b.files[k].archive)
            && Intact(storage, sha, FileOfArchive(b.files[k].archive))
            && TextOf(storage, b.files, d)
               == storage[b.files[k].archive.relativePath][d.byteOffset..d.byteOffset + d.byteLength]
  {
    hide FileRowOk, CountsOk;
    assert ParsedDocumentOk(b.files, b.documents, i);
    var k :| 0 <= k < |b.files| && Matches(b.documents[i], b.files[k].archive);
    OrdinalFound(b.files, b.documents[i].archiveId, k);
  }

  lemma OrdinalLookup(b: ParsedBatch, ordinals: map<U64, nat>, archiveId: U64)
    requires BatchOk(b) && AreOrdinals(ordinals, b.files)
    requires OrdinalOf(b.files, archiveId) < |b.files|
             && b.files[OrdinalOf(b.files, archiveId)].archive.archiveId == archiveId
    ensures archiveId in ordinals && ordinals[archiveId] == OrdinalOf(b.files, archiveId)
  {
  }

  /** A document enters the Segment: its record and its frequencies. */
  method BuildDocument(b: ParsedBatch, i: nat, records: seq<FileRecord>, ordinals: map<U64, nat>, storage: Storage,
                       ghost sha: Bytes -> Bytes, inverted: Index)
    returns (ok: bool, document: DocumentRecord, r: Index)
    requires BatchOk(b) && b.descriptor.batchId < 0x1_0000_0000 && i < |b.documents|
    requires AllIntact(storage, sha, b.files) && AreOrdinals(ordinals, b.files) && |b.files| <= 0x1_0000_0000
    requires |records| == |b.files|
    requires forall k :: 0 <= k < |b.files| ==> records[k] == FileOfArchive(b.files[k].archive)
    requires inverted == Inverted(Texts(storage, b)[..i])
    ensures ok <==> |Tokens(Texts(storage, b)[i])| == b.documents[i].termCount
    ensures ok ==> IsDocument(document, b, i)
    ensures ok ==> r == Inverted(Texts(storage, b)[..i + 1])
  {
    hide Tokens, AllIntact, BatchOk, Inverted, FrequencyMap, Entered, DocumentRowOk;
    r := inverted;
    var parsed := b.documents[i];
    DocumentReadable(storage, sha, b, i);
    OrdinalLookup(b, ordinals, parsed.archiveId);
    var ordinal := ordinals[parsed.archiveId];
    var raw := ReadOriginalRecord(storage, records[ordinal], parsed.byteOffset, parsed.byteLength);
    assert parsed.byteLength != 0 by { DocumentNotEmpty(parsed); }
    var terms := TokenizeTerms(raw.value);
    document := BuiltDocument(b.descriptor.batchId, b.files, parsed);
    ok := |terms| == parsed.termCount;
    if ok {
      var frequencies := CountTerms(terms);
      r := EnterDocument(inverted, parsed.localId, frequencies);
      var texts := Texts(storage, b);
      EnteredIsInverted(texts[..i], texts[i]);
      assert texts[..i + 1] == texts[..i] + [texts[i]];
    }
  }

  lemma DocumentNotEmpty(d: ParsedDocument)
    requires DocumentRowOk(d)
    ensures d.byteLength != 0
  {
  }

  /** The loop over the documents of the batch. */
  method BuildDocuments(b: ParsedBatch, records: seq<FileRecord>, ordinals: map<U64, nat>, storage: Storage,
                        ghost sha: Bytes -> Bytes)
    returns (ok: bool, c: SegmentContent, inverted: Index)
    requires BatchOk(b) && b.descriptor.batchId < 0x1_0000_0000
    requires AllIntact(storage, sha, b.files) && AreOrdinals(ordinals, b.files) && |b.files| <= 0x1_0000_0000
    requires |records| == |b.files|
    requires forall k :: 0 <= k < |b.files| ==> records[k] == FileOfArchive(b.files[k].archive)
    ensures ok <==> TermCountsOk(storage, b)
    ensures ok ==> |c.documents| == |b.documents|
    ensures ok ==> forall i :: 0 <= i < |b.documents| ==> IsDocument(c.documents[i], b, i)
    ensures ok ==> c.totalTerms == TotalTerms(c.documents)
    ensures ok ==> c.minTime == MinTime(c.documents) && c.maxTime == MaxTime(c.documents)
    ensures ok ==> c.files == records && c.terms == [] && c.postings == []
    ensures ok ==> inverted == Inverted(Texts(storage, b))
  {
    hide Tokens, AllIntact, BatchOk, Inverted, IsDocument, AreOrdinals, Texts;
    var documents := [];
    var totalTerms := 0;
    var minTime, maxTime := I64_MAX, I64_MIN;
    inverted := map[];
    NothingInverted(Texts(storage, b));
    while |documents| < |b.documents|
      invariant |documents| <= |b.documents|
      invariant forall i :: 0 <= i < |documents| ==>
                  IsDocument(documents[i], b, i) && |Tokens(Texts(storage, b)[i])| == b.documents[i].termCount
      invariant totalTerms == TotalTerms(documents)
      invariant minTime == MinTime(documents) && maxTime == MaxTime(documents)
      invariant inverted == Inverted(Texts(storage, b)[..|documents|])
    {
      var done, document, next := BuildDocument(b, |documents|, records, ordinals, storage, sha, inverted);
      if !done {
        return false, SegmentContent([], [], [], [], 0, 0, 0), map[];
      }
      assert (documents + [document])[..|documents|] == documents;
      documents := documents + [document];
      totalTerms := totalTerms + document.termCount;
      minTime := Min(minTime, document.occurredAt);
      maxTime := Max(maxTime, document.occurredAt);
      inverted := next;
    }
    assert Texts(storage, b)[..|documents|] == Texts(storage, b);
    ok := true;
    c := SegmentContent(records, documents, [], [], totalTerms, minTime, maxTime);
  }

  lemma NothingInverted(texts: seq<Bytes>)
    ensures Inverted(texts[..0]) == map[]
  {
  }

  lemma InvertedFits(texts: seq<Bytes>)
    requires |texts| <= 0x1_0000_0000 && forall i :: 0 <= i < |texts| ==> |Tokens(texts[i])| < 0x1_0000_0000
    ensures IndexFits(Inverted(texts))
  {
    hide Tokens;
    forall t <- Inverted(texts)
      ensures t != [] && InvertedRow(texts, t) != map[] && RowFits(InvertedRow(texts, t))
    {
      var d :| 0 <= d < |texts| && t in Tokens(texts[d]);
      TokensAreNormal(texts[d]);
      assert d in InvertedRow(texts, t);
      forall e <- InvertedRow(texts, t)
        ensures 0 < Count(Tokens(texts[e]), t) < 0x1_0000_0000
      {
        CountAtMost(Tokens(texts[e]), t);
      }
    }
  }

  lemma {:induction false} CountAtMost(s: seq<Term>, t: Term)
    ensures Count(s, t) <= |s|
    ensures t in s ==> 0 < Count(s, t)
  {
    if s != [] {
      var k := |s| - 1;
      CountAtMost(s[..k], t);
      assert s == s[..k] + [s[k]];
      assert multiset(s) == multiset(s[..k]) + multiset{s[k]};
    }
  }

  /** SegmentStore::build up to the serialization. */
  method Build(b: ParsedBatch, storage: Storage, sha: Bytes -> Bytes) returns (r: Option<SegmentContent>)
    requires BatchOk(b) && |b.files| <= 0x1_0000_0000
    ensures r.Some? <==> Buildable(storage, sha, b)
    ensures r.Some? ==> IsBuilt(r.value, storage, b)
    ensures r.Some? ==> b.descriptor.batchId < 0x1_0000_0000 && b.documents != []
    ensures r.Some? ==> forall k :: 0 <= k < |b.files| ==>
              var a := b.files[k].archive;
              && a.relativePath in storage && |storage[a.relativePath]| == a.fileSize
              && sha(storage[a.relativePath]) == a.sha256
    ensures r.Some? ==> forall i :: 0 <= i < |b.documents| ==>
              |Tokens(Texts(storage, b)[i])| == b.documents[i].termCount
    ensures r.Some? ==> |r.value.files| == |b.files| && forall k :: 0 <= k < |b.files| ==>
              var f, a := r.value.files[k], b.files[k].archive;
              && f.archiveId == a.archiveId && f.fileSize == a.fileSize && f.sha256 == a.sha256
              && f.path == a.relativePath
    ensures r.Some? ==> |r.value.documents| == |b.documents| && forall i :: 0 <= i < |b.documents| ==>
              Repeats(r.value.documents[i], b.documents[i], b.descriptor.batchId)
  {
    hide Tokens, Inverted, IsDocument, Repeats, BuiltDocument, AreOrdinals, Texts, TermsAccepted, Unflatten, FromRows,
         TotalTerms, MinTime, MaxTime, Intact, FilesOk, DocumentsOk, CountsOk;
    if b.descriptor.batchId > 0xFFFF_FFFF || b.files == [] || b.documents == [] {
      return None;
    }
    IdsDistinct(b);
    var ok, records, ordinals := VerifyFiles(b.files, storage, sha);
    if !ok {
      return None;
    }
    var c, inverted;
    ok, c, inverted := BuildDocuments(b, records, ordinals, storage, sha);
    if !ok {
      return None;
    }
    TextsFit(storage, b);
    var terms, postings;
    ok, terms, postings := Flatten(inverted);
    if !ok {
      return None;
    }
    EmptyIndex(terms, postings);
    if terms == [] || postings == [] {
      return None;
    }
    IntactMeans(storage, sha, b.files);
    forall i | 0 <= i < |b.documents|
      ensures Repeats(c.documents[i], b.documents[i], b.descriptor.batchId)
    {
      DocumentRepeats(c.documents[i], b, i);
    }
    r := Some(c.(terms := terms, postings := postings));
  }

  lemma DocumentRepeats(d: DocumentRecord, b: ParsedBatch, i: nat)
    requires i < |b.documents| && b.descriptor.batchId < 0x1_0000_0000 && IsDocument(d, b, i)
    ensures Repeats(d, b.documents[i], b.descriptor.batchId)
  {
    hide Repeats, BuiltDocument;
    BuiltRepeats(b.descriptor.batchId, b.files, b.documents[i]);
  }

  lemma IdsDistinct(b: ParsedBatch)
    requires BatchOk(b)
    ensures forall i, j :: 0 <= i < j < |b.files| ==> b.files[i].archive.archiveId != b.files[j].archive.archiveId
  {
  }

  lemma TextsFit(storage: Storage, b: ParsedBatch)
    requires BatchOk(b) && TermCountsOk(storage, b)
    ensures IndexFits(Inverted(Texts(storage, b)))
  {
    hide Tokens, Inverted, Texts, IndexFits, FilesOk, CountsOk;
    forall i | 0 <= i < |b.documents|
      ensures b.documents[i].termCount < 0x1_0000_0000 && b.documents[i].localId == i
    {
      assert ParsedDocumentOk(b.files, b.documents, i);
    }
    if b.documents != [] {
      assert b.documents[|b.documents| - 1].localId == |b.documents| - 1;
    }
    InvertedFits(Texts(storage, b));
  }

  /** A table without terms or postings stands for the empty index, and nothing else does. */
  lemma EmptyIndex(terms: seq<TermRecord>, postings: seq<Posting>)
    requires TermsAccepted(terms, postings)
    ensures Unflatten(terms, postings) == map[] <==> terms == []
    ensures terms == [] <==> postings == []
  {
    hide Less, Increasing, RowOf, RangeOf;
    if terms != [] {
      assert TermOk(terms, |terms| - 1, postings);
      assert terms[|terms| - 1].term in Unflatten(terms, postings);
    }
  }
}
