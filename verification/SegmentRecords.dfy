// files.bin, documents.bin, postings.bin and terms.bin.

module SegmentRecords {
  import opened Common
  import opened BinaryRecords
  import opened SegmentTables
  import opened Terms

  datatype FileRecord = FileRecord(archiveId: U64, fileSize: U64, sha256: Bytes, path: Bytes)

  datatype DocumentRecord = DocumentRecord(
    docId: U64, localId: U32, fileOrdinal: U32, archiveId: U64, byteOffset: U64, byteLength: U64,
    occurredAt: I64, archivedAt: I64, termCount: U32,
    lineId: Bytes, stationId: Bytes, deviceId: Bytes, collectorId: Bytes, workOrder: Bytes,
    productSn: Bytes, sourceType: Bytes, level: Bytes, moduleName: Bytes, errorCode: Bytes, eventName: Bytes)

  datatype Posting = Posting(localId: U32, frequency: U32)

  /** `begin` is an index into a vector in memory; only the file limits it to 64 bits. */
  datatype TermRecord = TermRecord(term: Term, documentFrequency: U32, begin: nat, count: U32)

  /** A decoded list that also passes the checks of its table. */
  ghost function Checked<T(!new)>(list: Option<seq<T>>, accepted: seq<T> -> bool): Option<seq<T>> {
    if list.Some? && accepted(list.value) then list else None
  }

  // ---------------------------------------------------------------- files.bin

  const FILES_LAYOUT: Layout := [Word(8), Word(8), Raw(32), Text]

  const FILES: Table<FileRecord> :=
    Table(Ascii("LTFIL001"), FILES_LAYOUT,
          (f: FileRecord) => ValidSha256(f.sha256), FileFields, FileOf)

  function FileFields(f: FileRecord): Record {
    [Number(f.archiveId), Number(f.fileSize),
     Data(if ValidSha256(f.sha256) then HexToBytes(f.sha256) else []), Data(f.path)]
  }

  function FileOf(r: Record): FileRecord {
    if RecordFits(FILES_LAYOUT, r) then
      LimitFits();
      assert FieldFits(FILES_LAYOUT[0], r[0]) && FieldFits(FILES_LAYOUT[1], r[1]);
      assert FieldFits(FILES_LAYOUT[2], r[2]) && FieldFits(FILES_LAYOUT[3], r[3]);
      FileRecord(r[0].value, r[1].value, BytesToHex(r[2].bytes), r[3].bytes)
    else FileRecord(0, 0, [], [])
  }

  lemma FileThere(r: Record)
    requires RecordFits(FILES_LAYOUT, r)
    ensures ValidSha256(FileOf(r).sha256) && FileFields(FileOf(r)) == r
  {
    LimitFits();
    assert FieldFits(FILES_LAYOUT[0], r[0]) && FieldFits(FILES_LAYOUT[1], r[1]);
    assert FieldFits(FILES_LAYOUT[2], r[2]) && FieldFits(FILES_LAYOUT[3], r[3]);
    BytesRoundTrip(r[2].bytes);
  }

  lemma FileBack(f: FileRecord)
    requires ValidSha256(f.sha256)
    ensures |FileFields(f)| == 4 && forall i :: 0 <= i < 4 ==> WellTyped(FILES_LAYOUT[i], FileFields(f)[i])
    ensures RecordFits(FILES_LAYOUT, FileFields(f)) ==> FileOf(FileFields(f)) == f
  {
    hide HexToBytes, BytesToHex, ValidSha256;
    LimitFits();
    HexRoundTrip(f.sha256);
  }

  lemma FilesFaithful()
    ensures Faithful(FILES)
  {
    hide FileFields, FileOf, RecordFits, WellTyped, ValidSha256;
    forall f: FileRecord | ValidSha256(f.sha256)
      ensures |FileFields(f)| == 4 && forall i :: 0 <= i < 4 ==> WellTyped(FILES_LAYOUT[i], FileFields(f)[i])
      ensures RecordFits(FILES_LAYOUT, FileFields(f)) ==> FileOf(FileFields(f)) == f
    {
      FileBack(f);
    }
    forall r: Record | RecordFits(FILES_LAYOUT, r)
      ensures ValidSha256(FileOf(r).sha256) && FileFields(FileOf(r)) == r
    {
      FileThere(r);
    }
  }

  predicate FileOk(f: FileRecord) {
    f.archiveId != 0 && f.fileSize != 0 && f.path != [] && |f.path| <= 512
  }

  ghost predicate FilesAccepted(files: seq<FileRecord>) {
    && (forall i :: 0 <= i < |files| ==> FileOk(files[i]))
    && (forall i, j :: 0 <= i < j < |files| ==> files[i].archiveId != files[j].archiveId)
  }

  lemma FilesMean(files: seq<FileRecord>)
    requires FilesAccepted(files)
    ensures && (forall i :: 0 <= i < |files| ==>
                  files[i].archiveId != 0 && files[i].fileSize != 0 && 0 < |files[i].path| <= 512)
            && (forall i, j :: 0 <= i < j < |files| ==> files[i].archiveId != files[j].archiveId)
  {
  }

  /** loadFiles: the list whose serialization the content is, if every record passes the checks. */
  method LoadFiles(content: Bytes, expectedCount: nat) returns (r: Option<seq<FileRecord>>)
    ensures r == Checked(Decode(FILES, content, expectedCount), FilesAccepted)
    ensures r.Some? ==>
              var files := r.value;
              && (forall i :: 0 <= i < |files| ==>
                    files[i].archiveId != 0 && files[i].fileSize != 0 && 0 < |files[i].path| <= 512)
              && (forall i, j :: 0 <= i < j < |files| ==> files[i].archiveId != files[j].archiveId)
  {
    hide Decode, ReadSoFar, FileOk, Ascii;
    var reader := new BinaryReader(content);
    var ok := ReadHeader(reader, FILES.magic, expectedCount);
    if !ok {
      NoHeader(FILES, content, expectedCount);
      return None;
    }
    StartReading(FILES, content);
    var files := [];
    var archiveIds := {};
    while |files| < expectedCount
      invariant reader.Valid() && |files| <= expectedCount
      invariant ReadSoFar(FILES, content, files, reader.offset)
      invariant FilesAccepted(files)
      invariant archiveIds == set f <- files :: f.archiveId
    {
      var file := NextItem(FILES, reader, files, expectedCount);
      if file == None {
        return None;
      }
      if !FileOk(file.value) || file.value.archiveId in archiveIds {
        return None;
      }
      archiveIds := archiveIds + {file.value.archiveId};
      files := files + [file.value];
    }
    WholeTable(FILES, content, files, reader.offset);
    FilesMean(files);
    r := if reader.offset == |content| then Some(files) else None;
  }

  /** The list in files.bin: accepted exactly when it is written by the serializer and passes. */
  lemma FilesExact(content: Bytes, files: seq<FileRecord>)
    ensures Checked(Decode(FILES, content, |files|), FilesAccepted) == Some(files)
       <==> AllWritable(FILES, files) && content == TableBytes(FILES, files) && FilesAccepted(files)
  {
    hide Decode, FilesAccepted, TableBytes, AllWritable;
    FilesFaithful();
    DecodeExact(FILES, content, files);
  }

  // ---------------------------------------------------------------- documents.bin

  const DOCUMENTS_LAYOUT: Layout :=
    [Word(8), Word(4), Word(4), Word(8), Word(8), Word(8), Word(8), Word(8), Word(4),
     Text, Text, Text, Text, Text, Text, Text, Text, Text, Text, Text]

  const DOCUMENTS: Table<DocumentRecord> :=
    Table(Ascii("LTDOC001"), DOCUMENTS_LAYOUT, (d: DocumentRecord) => true, DocumentFields, DocumentOf)

  function DocumentFields(d: DocumentRecord): Record {
    [Number(d.docId), Number(d.localId), Number(d.fileOrdinal), Number(d.archiveId), Number(d.byteOffset),
     Number(d.byteLength), Number(Unsigned(d.occurredAt)), Number(Unsigned(d.archivedAt)), Number(d.termCount),
     Data(d.lineId), Data(d.stationId), Data(d.deviceId), Data(d.collectorId), Data(d.workOrder),
     Data(d.productSn), Data(d.sourceType), Data(d.level), Data(d.moduleName), Data(d.errorCode),
     Data(d.eventName)]
  }

  /** The fields of a record that fits have the types of its layout. */
  predicate DocumentTyped(r: Record) {
    && |r| == 20
    && (forall i :: 0 <= i < 9 ==> r[i].Number?)
    && (forall i :: 9 <= i < 20 ==> r[i].Data?)
    && r[0].value < 0x1_0000_0000_0000_0000 && r[1].value < 0x1_0000_0000 && r[2].value < 0x1_0000_0000
    && (forall i :: 3 <= i < 8 ==> r[i].value < 0x1_0000_0000_0000_0000) && r[8].value < 0x1_0000_0000
  }

  function DocumentOf(r: Record): DocumentRecord {
    if DocumentTyped(r) then
      DocumentRecord(
        r[0].value, r[1].value, r[2].value, r[3].value, r[4].value, r[5].value,
        Signed(r[6].value), Signed(r[7].value), r[8].value,
        r[9].bytes, r[10].bytes, r[11].bytes, r[12].bytes, r[13].bytes, r[14].bytes, r[15].bytes,
        r[16].bytes, r[17].bytes, r[18].bytes, r[19].bytes)
    else DocumentRecord(0, 0, 0, 0, 0, 0, 0, 0, 0, [], [], [], [], [], [], [], [], [], [], [])
  }

  lemma DocumentFits(r: Record)
    requires RecordFits(DOCUMENTS_LAYOUT, r)
    ensures DocumentTyped(r)
  {
    hide Pow256;
    LimitFits();
    assert forall i :: 0 <= i < 20 ==> FieldFits(DOCUMENTS_LAYOUT[i], r[i]);
  }

  lemma DocumentThere(r: Record)
    requires DocumentTyped(r)
    ensures DocumentFields(DocumentOf(r)) == r
  {
  }

  lemma DocumentBack(d: DocumentRecord)
    ensures DocumentTyped(DocumentFields(d)) && DocumentOf(DocumentFields(d)) == d
  {
  }

  lemma DocumentWellTyped(d: DocumentRecord)
    ensures |DocumentFields(d)| == |DOCUMENTS_LAYOUT|
    ensures forall i :: 0 <= i < |DOCUMENTS_LAYOUT| ==> WellTyped(DOCUMENTS_LAYOUT[i], DocumentFields(d)[i])
  {
    hide Pow256;
    LimitFits();
  }

  lemma DocumentsFaithful()
    ensures Faithful(DOCUMENTS)
  {
    hide DocumentFields, DocumentOf, DocumentTyped, RecordFits, WellTyped;
    forall d: DocumentRecord
      ensures |DocumentFields(d)| == |DOCUMENTS_LAYOUT| && DocumentOf(DocumentFields(d)) == d
      ensures forall i :: 0 <= i < |DOCUMENTS_LAYOUT| ==> WellTyped(DOCUMENTS_LAYOUT[i], DocumentFields(d)[i])
    {
      DocumentBack(d);
      DocumentWellTyped(d);
    }
    forall r: Record | RecordFits(DOCUMENTS_LAYOUT, r)
      ensures DocumentFields(DocumentOf(r)) == r
    {
      DocumentFits(r);
      DocumentThere(r);
    }
  }

  predicate DocumentOk(d: DocumentRecord, index: nat, batchId: U32, files: seq<FileRecord>) {
    && d.localId == index && d.docId == batchId * 0x1_0000_0000 + d.localId
    && d.fileOrdinal < |files| && d.byteLength != 0
    && d.archiveId == files[d.fileOrdinal].archiveId
    && d.byteOffset <= files[d.fileOrdinal].fileSize
    && d.byteLength <= files[d.fileOrdinal].fileSize - d.byteOffset
    && d.lineId != [] && d.stationId != [] && d.deviceId != [] && d.collectorId != []
    && d.sourceType != [] && d.level != [] && d.moduleName != []
  }

  predicate DocumentsAccepted(documents: seq<DocumentRecord>, batchId: U32, files: seq<FileRecord>) {
    forall i :: 0 <= i < |documents| ==> DocumentOk(documents[i], i, batchId, files)
  }

  lemma DocumentsMean(documents: seq<DocumentRecord>, batchId: U32, files: seq<FileRecord>)
    requires DocumentsAccepted(documents, batchId, files)
    ensures forall i :: 0 <= i < |documents| ==>
              var d := documents[i];
              && d.localId == i && d.docId == batchId * 0x1_0000_0000 + i && d.fileOrdinal < |files|
              && d.archiveId == files[d.fileOrdinal].archiveId
              && 0 < d.byteLength && d.byteOffset + d.byteLength <= files[d.fileOrdinal].fileSize
              && d.lineId != [] && d.stationId != [] && d.deviceId != [] && d.collectorId != []
              && d.sourceType != [] && d.level != [] && d.moduleName != []
  {
  }

  /** loadDocuments */
  method LoadDocuments(content: Bytes, expectedCount: nat, batchId: U32, files: seq<FileRecord>)
    returns (r: Option<seq<DocumentRecord>>)
    ensures r == Checked(Decode(DOCUMENTS, content, expectedCount),
                         documents => DocumentsAccepted(documents, batchId, files))
    ensures r.Some? ==>
              var documents := r.value;
              forall i :: 0 <= i < |documents| ==>
                var d := documents[i];
                && d.localId == i && d.docId == batchId * 0x1_0000_0000 + i && d.fileOrdinal < |files|
                && d.archiveId == files[d.fileOrdinal].archiveId
                && 0 < d.byteLength && d.byteOffset + d.byteLength <= files[d.fileOrdinal].fileSize
                && d.lineId != [] && d.stationId != [] && d.deviceId != [] && d.collectorId != []
                && d.sourceType != [] && d.level != [] && d.moduleName != []
  {
    hide Decode, ReadSoFar, DocumentOk, Ascii;
    var reader := new BinaryReader(content);
    var ok := ReadHeader(reader, DOCUMENTS.magic, expectedCount);
    if !ok {
      NoHeader(DOCUMENTS, content, expectedCount);
      return None;
    }
    StartReading(DOCUMENTS, content);
    var documents := [];
    while |documents| < expectedCount
      invariant reader.Valid() && |documents| <= expectedCount
      invariant ReadSoFar(DOCUMENTS, content, documents, reader.offset)
      invariant DocumentsAccepted(documents, batchId, files)
    {
      var document := NextItem(DOCUMENTS, reader, documents, expectedCount);
      if document == None {
        return None;
      }
      if !DocumentOk(document.value, |documents|, batchId, files) {
        return None;
      }
      documents := documents + [document.value];
    }
    WholeTable(DOCUMENTS, content, documents, reader.offset);
    DocumentsMean(documents, batchId, files);
    r := if reader.offset == |content| then Some(documents) else None;
  }

  lemma DocumentsExact(content: Bytes, documents: seq<DocumentRecord>, batchId: U32, files: seq<FileRecord>)
    ensures Checked(Decode(DOCUMENTS, content, |documents|),
                    ds => DocumentsAccepted(ds, batchId, files)) == Some(documents)
       <==> && AllWritable(DOCUMENTS, documents) && content == TableBytes(DOCUMENTS, documents)
            && DocumentsAccepted(documents, batchId, files)
  {
    hide Decode, DocumentsAccepted, TableBytes, AllWritable;
    DocumentsFaithful();
    DecodeExact(DOCUMENTS, content, documents);
  }

  // ---------------------------------------------------------------- postings.bin

  const POSTINGS_LAYOUT: Layout := [Word(4), Word(4)]

  const POSTINGS: Table<Posting> :=
    Table(Ascii("LTPST001"), POSTINGS_LAYOUT, (p: Posting) => true, PostingFields, PostingOf)

  function PostingFields(p: Posting): Record {
    [Number(p.localId), Number(p.frequency)]
  }

  function PostingOf(r: Record): Posting {
    if RecordFits(POSTINGS_LAYOUT, r) then
      LimitFits();
      assert FieldFits(POSTINGS_LAYOUT[0], r[0]) && FieldFits(POSTINGS_LAYOUT[1], r[1]);
      Posting(r[0].value, r[1].value)
    else Posting(0, 0)
  }

  lemma PostingsFaithful()
    ensures Faithful(POSTINGS)
  {
    LimitFits();
    forall r: Record | RecordFits(POSTINGS_LAYOUT, r)
      ensures PostingFields(PostingOf(r)) == r
    {
      assert FieldFits(POSTINGS_LAYOUT[0], r[0]) && FieldFits(POSTINGS_LAYOUT[1], r[1]);
    }
  }

  predicate PostingsAccepted(postings: seq<Posting>, documentCount: nat) {
    forall i :: 0 <= i < |postings| ==> postings[i].localId < documentCount && postings[i].frequency != 0
  }

  /** loadPostings */
  method LoadPostings(content: Bytes, expectedCount: nat, documentCount: nat) returns (r: Option<seq<Posting>>)
    ensures r == Checked(Decode(POSTINGS, content, expectedCount), ps => PostingsAccepted(ps, documentCount))
    ensures r.Some? ==>
              var postings := r.value;
              forall i :: 0 <= i < |postings| ==> postings[i].localId < documentCount && postings[i].frequency > 0
  {
    hide Decode, ReadSoFar, Ascii;
    var reader := new BinaryReader(content);
    var ok := ReadHeader(reader, POSTINGS.magic, expectedCount);
    if !ok {
      NoHeader(POSTINGS, content, expectedCount);
      return None;
    }
    StartReading(POSTINGS, content);
    var postings := [];
    while |postings| < expectedCount
      invariant reader.Valid() && |postings| <= expectedCount
      invariant ReadSoFar(POSTINGS, content, postings, reader.offset)
      invariant PostingsAccepted(postings, documentCount)
    {
      var posting := NextItem(POSTINGS, reader, postings, expectedCount);
      if posting == None {
        return None;
      }
      if posting.value.localId >= documentCount || posting.value.frequency == 0 {
        return None;
      }
      postings := postings + [posting.value];
    }
    WholeTable(POSTINGS, content, postings, reader.offset);
    r := if reader.offset == |content| then Some(postings) else None;
  }

  lemma PostingsExact(content: Bytes, postings: seq<Posting>, documentCount: nat)
    ensures Checked(Decode(POSTINGS, content, |postings|), ps => PostingsAccepted(ps, documentCount)) == Some(postings)
       <==> && AllWritable(POSTINGS, postings) && content == TableBytes(POSTINGS, postings)
            && PostingsAccepted(postings, documentCount)
  {
    hide Decode, PostingsAccepted, TableBytes, AllWritable;
    PostingsFaithful();
    DecodeExact(POSTINGS, content, postings);
  }

  lemma PostingSize(r: Record)
    requires RecordFits(POSTINGS_LAYOUT, r)
    ensures |RecordBytes(POSTINGS_LAYOUT, r)| == 8
  {
    hide LittleEndian;
    assert POSTINGS_LAYOUT[..1] == [Word(4)] && POSTINGS_LAYOUT[..1][..0] == [];
    assert r[..1][..0] == [];
    assert RecordBytes(POSTINGS_LAYOUT[..1], r[..1]) == RecordBytes([], []) + FieldBytes(Word(4), r[0]);
  }

  lemma {:induction false} PostingsSizes(rs: seq<Record>)
    requires RecordsFit(POSTINGS_LAYOUT, rs)
    ensures |RecordsBytes(POSTINGS_LAYOUT, rs)| == 8 * |rs|
  {
    if rs != [] {
      PostingsSizes(rs[..|rs| - 1]);
      PostingSize(rs[|rs| - 1]);
    }
  }

  /** postings.bin has 8 bytes for each posting after a header of 20. */
  lemma PostingsSize(postings: seq<Posting>)
    requires AllWritable(POSTINGS, postings)
    ensures |TableBytes(POSTINGS, postings)| == 20 + 8 * |postings|
  {
    hide RecordsBytes, RecordFits;
    RowsFit(POSTINGS, postings);
    PostingsSizes(Rows(POSTINGS, postings));
    LimitFits();
  }

  // ---------------------------------------------------------------- terms.bin

  const TERMS_LAYOUT: Layout := [Text, Word(4), Word(8), Word(4)]

  const TERMS: Table<TermRecord> :=
    Table(Ascii("LTTRM001"), TERMS_LAYOUT, (t: TermRecord) => t.begin < 0x1_0000_0000_0000_0000, TermFields, TermOf)

  function TermFields(t: TermRecord): Record {
    [Data(t.term), Number(t.documentFrequency), Number(t.begin), Number(t.count)]
  }

  function TermOf(r: Record): TermRecord {
    if RecordFits(TERMS_LAYOUT, r) then
      LimitFits();
      assert FieldFits(TERMS_LAYOUT[0], r[0]) && FieldFits(TERMS_LAYOUT[1], r[1]);
      assert FieldFits(TERMS_LAYOUT[2], r[2]) && FieldFits(TERMS_LAYOUT[3], r[3]);
      TermRecord(r[0].bytes, r[1].value, r[2].value, r[3].value)
    else TermRecord([], 0, 0, 0)
  }

  lemma TermsFaithful()
    ensures Faithful(TERMS)
  {
    LimitFits();
    forall r: Record | RecordFits(TERMS_LAYOUT, r)
      ensures TermFields(TermOf(r)) == r
    {
      assert FieldFits(TERMS_LAYOUT[0], r[0]) && FieldFits(TERMS_LAYOUT[1], r[1]);
      assert FieldFits(TERMS_LAYOUT[2], r[2]) && FieldFits(TERMS_LAYOUT[3], r[3]);
    }
  }

  predicate Increasing(postings: seq<Posting>) {
    forall i :: 0 < i < |postings| ==> postings[i - 1].localId < postings[i].localId
  }

  /** Where the postings of the first terms end. */
  function Covered(terms: seq<TermRecord>): nat {
    if terms == [] then 0 else terms[|terms| - 1].begin + terms[|terms| - 1].count
  }

  predicate TermOk(terms: seq<TermRecord>, i: nat, postings: seq<Posting>)
    requires i < |terms|
  {
    var t := terms[i];
    && t.term != [] && (i > 0 ==> Less(terms[i - 1].term, t.term))
    && t.documentFrequency != 0 && t.documentFrequency == t.count
    && t.begin == Covered(terms[..i]) && t.begin + t.count <= |postings|
    && Increasing(postings[t.begin..t.begin + t.count])
  }

  predicate TermsSoFar(terms: seq<TermRecord>, postings: seq<Posting>) {
    forall i :: 0 <= i < |terms| ==> TermOk(terms, i, postings)
  }

  predicate TermsAccepted(terms: seq<TermRecord>, postings: seq<Posting>) {
    TermsSoFar(terms, postings) && Covered(terms) == |postings|
  }

  /** term_lookup */
  ghost predicate IsLookup(lookup: map<Term, nat>, terms: seq<TermRecord>) {
    && (forall t <- lookup :: lookup[t] < |terms| && terms[lookup[t]].term == t)
    && (forall i :: 0 <= i < |terms| ==> terms[i].term in lookup && lookup[terms[i].term] == i)
  }

  /** There is only one lookup for a table of distinct terms ... */
  lemma LookupUnique(a: map<Term, nat>, b: map<Term, nat>, terms: seq<TermRecord>)
    requires IsLookup(a, terms) && IsLookup(b, terms)
    ensures a == b
  {
    assert forall t <- a :: terms[a[t]].term in b;
    assert forall t <- b :: terms[b[t]].term in a;
  }

  /** ... and here it is. */
  function LookupOf(terms: seq<TermRecord>): map<Term, nat> {
    if terms == [] then map[] else LookupOf(terms[..|terms| - 1])[terms[|terms| - 1].term := |terms| - 1]
  }

  lemma {:induction false} LookupIs(terms: seq<TermRecord>)
    requires forall i, j :: 0 <= i < j < |terms| ==> terms[i].term != terms[j].term
    ensures IsLookup(LookupOf(terms), terms)
  {
    if terms != [] {
      LookupIs(terms[..|terms| - 1]);
    }
  }

  lemma AcceptedLookup(terms: seq<TermRecord>, postings: seq<Posting>)
    requires TermsAccepted(terms, postings)
    ensures IsLookup(LookupOf(terms), terms)
  {
    forall i, j | 0 <= i < j < |terms|
      ensures terms[i].term != terms[j].term
    {
      TermsSorted(terms, postings, i, j);
      LessIrreflexive(terms[i].term);
    }
    LookupIs(terms);
  }

  lemma NextTermOk(terms: seq<TermRecord>, term: TermRecord, postings: seq<Posting>)
    requires TermsSoFar(terms, postings)
    ensures TermsSoFar(terms + [term], postings) <==> TermOk(terms + [term], |terms|, postings)
  {
    hide Less, Increasing;
    var longer := terms + [term];
    forall i | 0 <= i < |terms|
      ensures TermOk(longer, i, postings)
    {
      assert longer[..i] == terms[..i];
      assert TermOk(terms, i, postings);
    }
  }

  lemma TermsPrefix(terms: seq<TermRecord>, n: nat, postings: seq<Posting>)
    requires TermsSoFar(terms, postings) && n <= |terms|
    ensures TermsSoFar(terms[..n], postings)
  {
    hide Less, Increasing;
    forall i | 0 <= i < n
      ensures TermOk(terms[..n], i, postings)
    {
      assert terms[..n][..i] == terms[..i];
      assert TermOk(terms, i, postings);
    }
  }

  /** The inner loop of loadTerms: the local ids of one posting range. */
  method IdsIncrease(postings: seq<Posting>, begin: nat, count: nat) returns (ok: bool)
    requires begin + count <= |postings|
    ensures ok == Increasing(postings[begin..begin + count])
  {
    var list := postings[begin..begin + count];
    var previous := 0;
    for index := 0 to count
      invariant index > 0 ==> previous == list[index - 1].localId
      invariant Increasing(list[..index])
    {
      var localId := postings[begin + index].localId;
      assert localId == list[index].localId;
      if index != 0 && localId <= previous {
        return false;
      }
      previous := localId;
    }
    assert list[..count] == list;
    ok := true;
  }

  /** The checks on one term of terms.bin. */
  method CheckTerm(terms: seq<TermRecord>, term: TermRecord, previous: Term, expectedBegin: nat, postings: seq<Posting>)
    returns (ok: bool)
    requires TermsSoFar(terms, postings) && expectedBegin == Covered(terms) <= |postings|
    requires previous == if terms == [] then [] else terms[|terms| - 1].term
    ensures ok == TermsSoFar(terms + [term], postings)
  {
    hide Less, Increasing;
    NextTermOk(terms, term, postings);
    assert (terms + [term])[..|terms|] == terms;
    if terms != [] {
      assert TermOk(terms, |terms| - 1, postings);
    }
    if || term.term == [] || (previous != [] && !Less(previous, term.term))
       || term.documentFrequency == 0 || term.documentFrequency != term.count
       || term.begin != expectedBegin || term.begin > |postings| || term.count > |postings| - term.begin {
      return false;
    }
    ok := IdsIncrease(postings, term.begin, term.count);
  }

  lemma TermsMean(terms: seq<TermRecord>, postings: seq<Posting>)
    requires TermsAccepted(terms, postings)
    ensures && (forall i :: 0 <= i < |terms| ==>
                  && terms[i].term != [] && 0 < terms[i].count == terms[i].documentFrequency
                  && terms[i].begin == (if i == 0 then 0 else terms[i - 1].begin + terms[i - 1].count)
                  && terms[i].begin + terms[i].count <= |postings|)
            && (forall i, k :: 0 <= i < |terms| && terms[i].begin < k < terms[i].begin + terms[i].count ==>
                  postings[k - 1].localId < postings[k].localId)
            && (forall i :: 0 < i < |terms| ==> Less(terms[i - 1].term, terms[i].term))
            && |postings| == if terms == [] then 0 else terms[|terms| - 1].begin + terms[|terms| - 1].count
  {
    forall i | 0 <= i < |terms|
      ensures terms[i].term != [] && 0 < terms[i].count == terms[i].documentFrequency
      ensures terms[i].begin == if i == 0 then 0 else terms[i - 1].begin + terms[i - 1].count
      ensures terms[i].begin + terms[i].count <= |postings|
      ensures i > 0 ==> Less(terms[i - 1].term, terms[i].term)
      ensures forall k :: terms[i].begin < k < terms[i].begin + terms[i].count ==>
                postings[k - 1].localId < postings[k].localId
    {
      TermMeans(terms, postings, i);
    }
  }

  lemma TermMeans(terms: seq<TermRecord>, postings: seq<Posting>, i: nat)
    requires i < |terms| && TermOk(terms, i, postings)
    ensures terms[i].term != [] && 0 < terms[i].count == terms[i].documentFrequency
    ensures terms[i].begin == if i == 0 then 0 else terms[i - 1].begin + terms[i - 1].count
    ensures terms[i].begin + terms[i].count <= |postings|
    ensures i > 0 ==> Less(terms[i - 1].term, terms[i].term)
    ensures forall k :: terms[i].begin < k < terms[i].begin + terms[i].count ==>
              postings[k - 1].localId < postings[k].localId
  {
    hide Less;
    var from, to := terms[i].begin, terms[i].begin + terms[i].count;
    var list := postings[from..to];
    forall k | from < k < to
      ensures postings[k - 1].localId < postings[k].localId
    {
      assert list[k - from - 1] == postings[k - 1] && list[k - from] == postings[k];
    }
  }

  /** loadTerms */
  method LoadTerms(content: Bytes, expectedCount: nat, postings: seq<Posting>)
    returns (r: Option<seq<TermRecord>>, lookup: map<Term, nat>)
    ensures r == Checked(Decode(TERMS, content, expectedCount), ts => TermsAccepted(ts, postings))
    ensures r.Some? ==>
              var terms := r.value;
              && (forall i :: 0 <= i < |terms| ==>
                    && terms[i].term != [] && 0 < terms[i].count == terms[i].documentFrequency
                    && terms[i].begin == (if i == 0 then 0 else terms[i - 1].begin + terms[i - 1].count)
                    && terms[i].begin + terms[i].count <= |postings|)
              && (forall i, k :: 0 <= i < |terms| && terms[i].begin < k < terms[i].begin + terms[i].count ==>
                    postings[k - 1].localId < postings[k].localId)
              && (forall i :: 0 < i < |terms| ==> Less(terms[i - 1].term, terms[i].term))
              && |postings| == if terms == [] then 0 else terms[|terms| - 1].begin + terms[|terms| - 1].count
    ensures r.Some? ==> IsLookup(lookup, r.value)
  {
    hide Decode, ReadSoFar, Ascii, TermsSoFar;
    lookup := map[];
    var reader := new BinaryReader(content);
    var ok := ReadHeader(reader, TERMS.magic, expectedCount);
    if !ok {
      NoHeader(TERMS, content, expectedCount);
      return None, lookup;
    }
    StartReading(TERMS, content);
    var terms: seq<TermRecord> := [];
    var expectedBegin := 0;
    var previous: Term := [];
    NoTerms(postings);
    while |terms| < expectedCount
      invariant reader.Valid() && |terms| <= expectedCount
      invariant ReadSoFar(TERMS, content, terms, reader.offset)
      invariant TermsSoFar(terms, postings) && expectedBegin == Covered(terms) <= |postings|
      invariant previous == if terms == [] then [] else terms[|terms| - 1].term
      invariant IsLookup(lookup, terms)
    {
      var term := NextItem(TERMS, reader, terms, expectedCount);
      if term == None {
        return None, lookup;
      }
      ok := CheckTerm(terms, term.value, previous, expectedBegin, postings);
      if !ok {
        BadTerm(Decode(TERMS, content, expectedCount), terms, term.value, postings);
        return None, lookup;
      }
      CoveredNext(terms, term.value, postings);
      TermIsNew(terms + [term.value], postings);
      lookup := lookup[term.value.term := |terms|];
      previous := term.value.term;
      expectedBegin := expectedBegin + term.value.count;
      terms := terms + [term.value];
    }
    WholeTable(TERMS, content, terms, reader.offset);
    if expectedBegin == |postings| {
      TermsMean(terms, postings);
    }
    r := if expectedBegin == |postings| && reader.offset == |content| then Some(terms) else None;
  }

  lemma NoTerms(postings: seq<Posting>)
    ensures TermsSoFar([], postings)
  {
  }

  lemma CoveredNext(terms: seq<TermRecord>, term: TermRecord, postings: seq<Posting>)
    requires TermsSoFar(terms + [term], postings)
    ensures Covered(terms + [term]) == Covered(terms) + term.count <= |postings|
  {
    assert TermOk(terms + [term], |terms|, postings);
    assert (terms + [term])[..|terms|] == terms;
  }

  lemma BadTerm(all: Option<seq<TermRecord>>, terms: seq<TermRecord>, term: TermRecord, postings: seq<Posting>)
    requires !TermsSoFar(terms + [term], postings)
    requires all.Some? ==> |all.value| > |terms| && all.value[..|terms|] == terms && all.value[|terms|] == term
    ensures Checked(all, ts => TermsAccepted(ts, postings)) == None
  {
    if all.Some? {
      assert all.value[..|terms| + 1] == terms + [term];
      if TermsSoFar(all.value, postings) {
        TermsPrefix(all.value, |terms| + 1, postings);
      }
    }
  }

  lemma TermIsNew(terms: seq<TermRecord>, postings: seq<Posting>)
    requires terms != [] && TermsSoFar(terms, postings)
    ensures forall i :: 0 <= i < |terms| - 1 ==> terms[i].term != terms[|terms| - 1].term
  {
    forall i | 0 <= i < |terms| - 1
      ensures terms[i].term != terms[|terms| - 1].term
    {
      TermsSorted(terms, postings, i, |terms| - 1);
      LessIrreflexive(terms[i].term);
    }
  }

  /** The terms of an accepted table are strictly sorted ... */
  lemma {:induction false} TermsSorted(terms: seq<TermRecord>, postings: seq<Posting>, i: nat, j: nat)
    requires TermsSoFar(terms, postings) && i < j < |terms|
    ensures Less(terms[i].term, terms[j].term)
    decreases j
  {
    assert TermOk(terms, j, postings);
    if i < j - 1 {
      TermsSorted(terms, postings, i, j - 1);
      LessTransitive(terms[i].term, terms[j - 1].term, terms[j].term);
    }
  }

  lemma {:induction false} RangesInOrder(terms: seq<TermRecord>, postings: seq<Posting>, i: nat, j: nat)
    requires TermsSoFar(terms, postings) && i < j < |terms|
    ensures terms[i].begin + terms[i].count <= terms[j].begin
    decreases j
  {
    assert TermOk(terms, j, postings);
    if i < j - 1 {
      RangesInOrder(terms, postings, i, j - 1);
    }
  }

  predicate Owns(t: TermRecord, p: nat) {
    t.begin <= p < t.begin + t.count
  }

  lemma {:induction false} SomeOwner(terms: seq<TermRecord>, postings: seq<Posting>, p: nat)
    requires TermsSoFar(terms, postings) && p < Covered(terms)
    ensures exists i :: 0 <= i < |terms| && Owns(terms[i], p)
    decreases |terms|
  {
    var last := |terms| - 1;
    if p < terms[last].begin {
      assert TermOk(terms, last, postings);
      TermsPrefix(terms, last, postings);
      SomeOwner(terms[..last], postings, p);
      var i :| 0 <= i < last && Owns(terms[..last][i], p);
      assert Owns(terms[i], p);
    } else {
      assert Owns(terms[last], p);
    }
  }

  /** ... and their ranges partition the postings: every posting belongs to exactly one term. */
  lemma RangesPartition(terms: seq<TermRecord>, postings: seq<Posting>, p: nat)
    requires TermsAccepted(terms, postings) && p < |postings|
    ensures exists i :: 0 <= i < |terms| && Owns(terms[i], p)
    ensures forall i, j :: 0 <= i < j < |terms| ==> !(Owns(terms[i], p) && Owns(terms[j], p))
  {
    SomeOwner(terms, postings, p);
    forall i, j | 0 <= i < j < |terms|
      ensures !(Owns(terms[i], p) && Owns(terms[j], p))
    {
      RangesInOrder(terms, postings, i, j);
    }
  }

  lemma TermsExact(content: Bytes, terms: seq<TermRecord>, postings: seq<Posting>)
    ensures Checked(Decode(TERMS, content, |terms|), ts => TermsAccepted(ts, postings)) == Some(terms)
       <==> AllWritable(TERMS, terms) && content == TableBytes(TERMS, terms) && TermsAccepted(terms, postings)
  {
    hide Decode, TermsAccepted, TableBytes, AllWritable;
    TermsFaithful();
    DecodeExact(TERMS, content, terms);
  }
}
