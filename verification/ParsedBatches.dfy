// ParsedBatchReader::load: the checks on the manifest and the two JSON-lines files of a parsed batch.

module ParsedBatches {
  import opened Common
  import opened LineSplitter
  import opened SegmentTables

  datatype ArchiveRecord = ArchiveRecord(
    archiveId: U64, lineId: Bytes, stationId: Bytes, deviceId: Bytes, collectorId: Bytes, workOrder: Bytes,
    productSn: Bytes, fileType: Bytes, relativePath: Bytes, fileSize: U64, sha256: Bytes, archivedAt: I64)

  datatype ParsedFile = ParsedFile(archive: ArchiveRecord, profile: string, version: nat, documentCount: nat)

  datatype ParsedDocument = ParsedDocument(
    localId: U32, archiveId: U64, byteOffset: U64, byteLength: U64, occurredAt: I64, archivedAt: I64,
    lineId: Bytes, stationId: Bytes, deviceId: Bytes, collectorId: Bytes, workOrder: Bytes, productSn: Bytes,
    sourceType: Bytes, level: Bytes, moduleName: Bytes, errorCode: Bytes, eventName: Bytes, termCount: nat)

  datatype BatchDescriptor = BatchDescriptor(
    batchId: U64, firstArchiveId: U64, lastArchiveId: U64, sourceFileCount: nat, documentCount: nat)

  datatype ParsedBatch = ParsedBatch(
    descriptor: BatchDescriptor, parsedFileCount: nat, failedFileCount: nat,
    files: seq<ParsedFile>, documents: seq<ParsedDocument>)

  /** parseArchive: the checks on one row of archives.jsonl. */
  predicate FileRowOk(f: ParsedFile) {
    var a := f.archive;
    && a.archiveId != 0 && a.fileSize != 0 && a.lineId != [] && a.stationId != [] && a.deviceId != []
    && a.collectorId != [] && a.relativePath != [] && |a.relativePath| <= 512 && ValidSha256(a.sha256)
    && f.profile != "" && f.version != 0
  }

  /** parseDocument: the checks on one row of documents.jsonl. */
  predicate DocumentRowOk(d: ParsedDocument) {
    && d.archiveId != 0 && d.byteLength != 0 && d.lineId != [] && d.stationId != [] && d.deviceId != []
    && d.collectorId != [] && d.sourceType != [] && d.level != [] && d.moduleName != []
    && d.termCount < 0x1_0000_0000
  }

  /** A document lies inside its archive and repeats its metadata. */
  predicate Matches(d: ParsedDocument, a: ArchiveRecord) {
    && d.archiveId == a.archiveId
    && d.byteOffset <= a.fileSize && d.byteLength <= a.fileSize - d.byteOffset
    && d.lineId == a.lineId && d.stationId == a.stationId && d.deviceId == a.deviceId
    && d.collectorId == a.collectorId && d.sourceType == a.fileType && d.archivedAt == a.archivedAt
  }

  predicate FilesOk(d: BatchDescriptor, files: seq<ParsedFile>) {
    && (forall i :: 0 <= i < |files| ==>
          FileRowOk(files[i]) && d.firstArchiveId <= files[i].archive.archiveId <= d.lastArchiveId)
    && (forall i, j :: 0 <= i < j < |files| ==> files[i].archive.archiveId != files[j].archive.archiveId)
  }

  predicate ParsedDocumentOk(files: seq<ParsedFile>, documents: seq<ParsedDocument>, i: nat)
    requires i < |documents|
  {
    && DocumentRowOk(documents[i]) && documents[i].localId == i
    && exists k :: 0 <= k < |files| && Matches(documents[i], files[k].archive)
  }

  predicate DocumentsOk(files: seq<ParsedFile>, documents: seq<ParsedDocument>) {
    forall i :: 0 <= i < |documents| ==> ParsedDocumentOk(files, documents, i)
  }

  /** How many documents an archive contributes. */
  function CountOf(documents: seq<ParsedDocument>, archiveId: U64): nat {
    if documents == [] then 0
    else
      var k := |documents| - 1;
      CountOf(documents[..k], archiveId) + if documents[k].archiveId == archiveId then 1 else 0
  }

  predicate CountsOk(files: seq<ParsedFile>, documents: seq<ParsedDocument>) {
    forall k :: 0 <= k < |files| ==> CountOf(documents, files[k].archive.archiveId) == files[k].documentCount
  }

  /** What queryBatchDescriptors lets through. */
  predicate DescriptorOk(d: BatchDescriptor) {
    && d.batchId != 0 && d.firstArchiveId != 0 && d.firstArchiveId <= d.lastArchiveId
    && d.sourceFileCount != 0 && d.documentCount != 0
  }

  /** What an accepted batch satisfies. */
  predicate BatchOk(b: ParsedBatch) {
    && DescriptorOk(b.descriptor)
    && b.parsedFileCount != 0 && b.parsedFileCount + b.failedFileCount == b.descriptor.sourceFileCount
    && |b.files| == b.parsedFileCount && |b.documents| == b.descriptor.documentCount
    && FilesOk(b.descriptor, b.files) && DocumentsOk(b.files, b.documents) && CountsOk(b.files, b.documents)
  }

  /** file_ordinals */
  ghost predicate AreOrdinals(ordinals: map<U64, nat>, files: seq<ParsedFile>) {
    && (forall id <- ordinals :: ordinals[id] < |files| && files[ordinals[id]].archive.archiveId == id)
    && (forall k :: 0 <= k < |files| ==>
          files[k].archive.archiveId in ordinals && ordinals[files[k].archive.archiveId] == k)
  }

  /** The loop over archives.jsonl. */
  method CheckFileRows(d: BatchDescriptor, rows: seq<ParsedFile>) returns (ok: bool, ordinals: map<U64, nat>)
    ensures ok == FilesOk(d, rows)
    ensures ok ==> AreOrdinals(ordinals, rows)
  {
    hide FileRowOk;
    ordinals := map[];
    var i := 0;
    while i < |rows|
      invariant i <= |rows| && FilesOk(d, rows[..i]) && AreOrdinals(ordinals, rows[..i])
    {
      assert rows[..i + 1] == rows[..i] + [rows[i]];
      var id := rows[i].archive.archiveId;
      if !FileRowOk(rows[i]) || id < d.firstArchiveId || id > d.lastArchiveId || id in ordinals {
        assert id in ordinals ==> rows[ordinals[id]].archive.archiveId == id;
        return false, ordinals;
      }
      ordinals := ordinals[id := i];
      i := i + 1;
    }
    assert rows[..i] == rows;
    ok := true;
  }

  lemma SameFile(files: seq<ParsedFile>, d: ParsedDocument, ordinals: map<U64, nat>)
    requires AreOrdinals(ordinals, files)
    ensures (exists k :: 0 <= k < |files| && Matches(d, files[k].archive))
       <==> d.archiveId in ordinals && Matches(d, files[ordinals[d.archiveId]].archive)
  {
  }

  /** The loop over documents.jsonl; `actual` are the documents counted per file. */
  method CheckDocumentRows(files: seq<ParsedFile>, ordinals: map<U64, nat>, rows: seq<ParsedDocument>)
    returns (ok: bool, actual: seq<nat>)
    requires AreOrdinals(ordinals, files)
    ensures ok == DocumentsOk(files, rows)
    ensures ok ==> |actual| == |files|
    ensures ok ==> forall k :: 0 <= k < |files| ==> actual[k] == CountOf(rows, files[k].archive.archiveId)
  {
    hide DocumentRowOk, Matches;
    actual := seq(|files|, _ => 0);
    var i := 0;
    while i < |rows|
      invariant i <= |rows| && |actual| == |files|
      invariant forall j :: 0 <= j < i ==> ParsedDocumentOk(files, rows, j)
      invariant forall k :: 0 <= k < |files| ==> actual[k] == CountOf(rows[..i], files[k].archive.archiveId)
    {
      assert rows[..i + 1][..i] == rows[..i];
      SameFile(files, rows[i], ordinals);
      if !DocumentRowOk(rows[i]) || rows[i].localId != i || rows[i].archiveId !in ordinals {
        assert !ParsedDocumentOk(files, rows, i);
        return false, actual;
      }
      var ordinal := ordinals[rows[i].archiveId];
      if !Matches(rows[i], files[ordinal].archive) {
        assert !ParsedDocumentOk(files, rows, i);
        return false, actual;
      }
      assert ParsedDocumentOk(files, rows, i);
      actual := actual[ordinal := actual[ordinal] + 1];
      i := i + 1;
    }
    assert rows[..i] == rows;
    ok := true;
  }

  /** The checks on counts and rows. */
  method CheckRows(d: BatchDescriptor, parsedFileCount: nat, failedFileCount: nat,
                   fileRows: seq<ParsedFile>, documentRows: seq<ParsedDocument>)
    returns (r: Option<ParsedBatch>)
    requires DescriptorOk(d)
    ensures var b := ParsedBatch(d, parsedFileCount, failedFileCount, fileRows, documentRows);
            r == if BatchOk(b) then Some(b) else None
  {
    hide FilesOk, DocumentsOk;
    if || parsedFileCount == 0 || parsedFileCount + failedFileCount != d.sourceFileCount
       || |fileRows| != parsedFileCount || |documentRows| != d.documentCount {
      return None;
    }
    var ok, ordinals := CheckFileRows(d, fileRows);
    if !ok {
      return None;
    }
    var actual;
    ok, actual := CheckDocumentRows(fileRows, ordinals, documentRows);
    if !ok {
      return None;
    }
    var expected := seq(|fileRows|, k requires 0 <= k < |fileRows| => fileRows[k].documentCount);
    if actual != expected {
      assert exists k :: 0 <= k < |fileRows| && actual[k] != expected[k];
      return None;
    }
    assert forall k :: 0 <= k < |fileRows| ==> actual[k] == expected[k];
    r := Some(ParsedBatch(d, parsedFileCount, failedFileCount, fileRows, documentRows));
  }

  // ---------------------------------------------------------------- the three files

  const PARSED_FORMAT_VERSION: nat := 1

  /** kJsonLinesLimit */
  const JSON_LINES_LIMIT: nat := 1024 * 1024 * 1024

  datatype ParsedManifest = ParsedManifest(
    formatVersion: nat, batchId: U64, firstArchiveId: U64, lastArchiveId: U64, sourceFileCount: nat,
    parsedFileCount: nat, failedFileCount: nat, documentCount: nat, archivesSha256: Bytes, documentsSha256: Bytes)

  /** A parsed directory: its manifest, archives.jsonl and documents.jsonl. */
  datatype ParsedFiles = ParsedFiles(manifest: ParsedManifest, archives: Bytes, documents: Bytes)

  /** The manifest repeats the database row and names its two files by well-formed digests. */
  predicate ParsedManifestOk(m: ParsedManifest, d: BatchDescriptor) {
    && m.formatVersion == PARSED_FORMAT_VERSION && m.batchId == d.batchId
    && m.firstArchiveId == d.firstArchiveId && m.lastArchiveId == d.lastArchiveId
    && m.sourceFileCount == d.sourceFileCount && m.documentCount == d.documentCount
    && ValidSha256(m.archivesSha256) && ValidSha256(m.documentsSha256)
  }

  predicate ContentOk(content: Bytes, digest: Bytes, sha: Bytes -> Bytes) {
    |content| <= JSON_LINES_LIMIT && sha(content) == digest
  }

  /** Non-empty rows, each ended by LF, are the whole content. */
  ghost predicate AreRows(rows: seq<Bytes>, content: Bytes) {
    rows != [] && ProperRows(rows) && RowsText(rows) == content
  }

  predicate ProperRows(rows: seq<Bytes>) {
    forall i :: 0 <= i < |rows| ==> rows[i] != [] && LF !in rows[i]
  }

  function RowsText(rows: seq<Bytes>): Bytes {
    if rows == [] then [] else rows[0] + [LF] + RowsText(rows[1..])
  }

  lemma {:induction false} RowsTextSnoc(rows: seq<Bytes>, row: Bytes)
    ensures RowsText(rows + [row]) == RowsText(rows) + row + [LF]
  {
    if rows == [] {
      assert row + [LF] + [] == [] + row + [LF];
    } else {
      RowsTextSnoc(rows[1..], row);
      assert (rows + [row])[1..] == rows[1..] + [row];
      assert rows[0] + [LF] + (RowsText(rows[1..]) + row + [LF]) == rows[0] + [LF] + RowsText(rows[1..]) + row + [LF];
    }
  }

  /** The first row ends at the first LF. */
  lemma SameFirstRow(a: Bytes, x: Bytes, b: Bytes, y: Bytes)
    requires LF !in a && LF !in b && a + [LF] + x == b + [LF] + y
    ensures a == b && x == y
  {
    var s := a + [LF] + x;
    assert s[|a|] == LF && s[|b|] == LF;
    assert forall i :: 0 <= i < |a| ==> s[i] == a[i];
    assert forall i :: 0 <= i < |b| ==> s[i] == b[i];
    assert a == s[..|a|] && b == s[..|b|];
    assert x == s[|a| + 1..] && y == s[|b| + 1..];
  }

  /** There is only one way to read a content as rows ... */
  lemma {:induction false} RowsUnique(a: seq<Bytes>, b: seq<Bytes>)
    requires ProperRows(a) && ProperRows(b) && RowsText(a) == RowsText(b)
    ensures a == b
  {
    if a != [] && b != [] {
      SameFirstRow(a[0], RowsText(a[1..]), b[0], RowsText(b[1..]));
      RowsUnique(a[1..], b[1..]);
      assert a == [a[0]] + a[1..] && b == [b[0]] + b[1..];
    }
  }

  /** ... and none once an empty row has been met. */
  lemma {:induction false} NoEmptyRow(rows: seq<Bytes>, others: seq<Bytes>, rest: Bytes)
    requires ProperRows(rows) && ProperRows(others) && rest != [] && rest[0] == LF
    ensures RowsText(others) != RowsText(rows) + rest
  {
    if rows == [] {
      assert others != [] ==> RowsText(others)[0] == others[0][0];
    } else if others != [] && RowsText(others) == RowsText(rows) + rest {
      assert RowsText(rows) + rest == rows[0] + [LF] + (RowsText(rows[1..]) + rest);
      SameFirstRow(others[0], RowsText(others[1..]), rows[0], RowsText(rows[1..]) + rest);
      NoEmptyRow(rows[1..], others[1..], rest);
    }
  }

  lemma {:induction false} RowsEndWithLf(rows: seq<Bytes>)
    requires rows != []
    ensures RowsText(rows) != [] && RowsText(rows)[|RowsText(rows)| - 1] == LF
  {
    if |rows| > 1 {
      RowsEndWithLf(rows[1..]);
    }
  }

  /** content.find('\n', begin) */
  method FindLf(content: Bytes, begin: nat) returns (end: nat)
    requires begin <= |content|
    ensures begin <= end <= |content| && LF !in content[begin..end]
    ensures forall i :: begin <= i < end ==> content[i] != LF
    ensures end < |content| ==> content[end] == LF
  {
    end := begin;
    while end < |content| && content[end] != LF
      invariant begin <= end <= |content| && LF !in content[begin..end]
      invariant forall i :: begin <= i < end ==> content[i] != LF
    {
      assert content[begin..end + 1] == content[begin..end] + [content[end]];
      end := end + 1;
    }
  }

  /** parseJsonLines: the rows of the content; None is an exception. */
  method SplitRows(content: Bytes) returns (r: Option<seq<Bytes>>)
    ensures r.Some? ==> AreRows(r.value, content)
    ensures r == None ==> forall rows :: !AreRows(rows, content)
  {
    if content == [] || content[|content| - 1] != LF {
      forall rows | AreRows(rows, content)
        ensures false
      {
        RowsEndWithLf(rows);
      }
      return None;
    }
    var rows: seq<Bytes> := [];
    var begin := 0;
    while begin < |content|
      invariant begin <= |content| && (begin == 0 <==> rows == [])
      invariant ProperRows(rows) && RowsText(rows) == content[..begin]
    {
      var end := FindLf(content, begin);
      if end == begin || end == |content| {
        assert content == content[..begin] + content[begin..];
        forall others | AreRows(others, content)
          ensures false
        {
          NoEmptyRow(rows, others, content[begin..]);
        }
        return None;
      }
      RowsTextSnoc(rows, content[begin..end]);
      assert content[..end + 1] == content[..begin] + content[begin..end] + [LF];
      rows := rows + [content[begin..end]];
      begin := end + 1;
    }
    assert content[..begin] == content;
    r := Some(rows);
  }

  /** Every row parses; JSON syntax is the parameter `parse`. */
  ghost predicate Parses<T>(items: seq<T>, rows: seq<Bytes>, parse: Bytes -> Option<T>) {
    |items| == |rows| && forall i :: 0 <= i < |rows| ==> parse(rows[i]) == Some(items[i])
  }

  method ParseRows<T(!new)>(rows: seq<Bytes>, parse: Bytes -> Option<T>) returns (r: Option<seq<T>>)
    ensures r.Some? ==> Parses(r.value, rows, parse)
    ensures r == None ==> forall items: seq<T> :: !Parses(items, rows, parse)
  {
    var items: seq<T> := [];
    while |items| < |rows|
      invariant |items| <= |rows| && forall i :: 0 <= i < |items| ==> parse(rows[i]) == Some(items[i])
    {
      var item := parse(rows[|items|]);
      if item == None {
        return None;
      }
      items := items + [item.value];
    }
    r := Some(items);
  }

  /** What a directory must be for `b` to be loaded from it. The digest of the manifest is the manifest itself. */
  ghost predicate HoldsBatch(b: ParsedBatch, d: BatchDescriptor, recorded: ParsedManifest, p: ParsedFiles,
                             sha: Bytes -> Bytes, parseFile: Bytes -> Option<ParsedFile>,
                             parseDocument: Bytes -> Option<ParsedDocument>)
  {
    var m := p.manifest;
    && m == recorded && ParsedManifestOk(m, d)
    && ContentOk(p.archives, m.archivesSha256, sha) && ContentOk(p.documents, m.documentsSha256, sha)
    && b.descriptor == d && b.parsedFileCount == m.parsedFileCount && b.failedFileCount == m.failedFileCount
    && (exists rows :: AreRows(rows, p.archives) && Parses(b.files, rows, parseFile))
    && (exists rows :: AreRows(rows, p.documents) && Parses(b.documents, rows, parseDocument))
    && BatchOk(b)
  }

  /** The document stands in the archive and repeats where it comes from. */
  predicate LiesIn(d: ParsedDocument, a: ArchiveRecord) {
    && d.archiveId == a.archiveId && d.byteOffset + d.byteLength <= a.fileSize
    && d.lineId == a.lineId && d.stationId == a.stationId && d.deviceId == a.deviceId
    && d.collectorId == a.collectorId && d.sourceType == a.fileType && d.archivedAt == a.archivedAt
  }

  predicate LiesInSome(d: ParsedDocument, files: seq<ParsedFile>) {
    exists k :: 0 <= k < |files| && LiesIn(d, files[k].archive)
  }

  lemma DocumentLies(files: seq<ParsedFile>, documents: seq<ParsedDocument>, i: nat)
    requires i < |documents| && ParsedDocumentOk(files, documents, i)
    ensures documents[i].localId == i && documents[i].byteLength > 0
    ensures LiesInSome(documents[i], files)
  {
    var k :| 0 <= k < |files| && Matches(documents[i], files[k].archive);
    assert LiesIn(documents[i], files[k].archive);
  }

  lemma HoldsMean(b: ParsedBatch, d: BatchDescriptor, recorded: ParsedManifest, p: ParsedFiles, sha: Bytes -> Bytes,
                  parseFile: Bytes -> Option<ParsedFile>, parseDocument: Bytes -> Option<ParsedDocument>)
    requires HoldsBatch(b, d, recorded, p, sha, parseFile, parseDocument)
    ensures var m := p.manifest;
            && m == recorded && m.formatVersion == 1 && m.batchId == d.batchId && m.documentCount == d.documentCount
            && m.firstArchiveId == d.firstArchiveId && m.lastArchiveId == d.lastArchiveId
            && m.parsedFileCount + m.failedFileCount == m.sourceFileCount == d.sourceFileCount
            && sha(p.archives) == m.archivesSha256 && |p.archives| <= 1073741824
            && sha(p.documents) == m.documentsSha256 && |p.documents| <= 1073741824
            && b.descriptor == d && |b.files| == m.parsedFileCount > 0 && |b.documents| == m.documentCount
            && (forall i, j :: 0 <= i < j < |b.files| ==> b.files[i].archive.archiveId != b.files[j].archive.archiveId)
            && (forall i :: 0 <= i < |b.files| ==>
                  && 0 < d.firstArchiveId <= b.files[i].archive.archiveId <= d.lastArchiveId
                  && 0 < |b.files[i].archive.relativePath| <= 512 && b.files[i].archive.fileSize > 0
                  && CountOf(b.documents, b.files[i].archive.archiveId) == b.files[i].documentCount)
            && (forall i :: 0 <= i < |b.documents| ==>
                  && b.documents[i].localId == i && b.documents[i].byteLength > 0
                  && LiesInSome(b.documents[i], b.files))
  {
    hide AreRows, Parses, ValidSha256, LiesInSome, ParsedDocumentOk;
    forall i | 0 <= i < |b.documents|
      ensures b.documents[i].localId == i && b.documents[i].byteLength > 0
      ensures LiesInSome(b.documents[i], b.files)
    {
      DocumentLies(b.files, b.documents, i);
    }
  }

  /** ParsedBatchReader::load: returns the batch if and only if the directory holds one that passes every check. */
  method Load(d: BatchDescriptor, recorded: ParsedManifest, p: ParsedFiles, sha: Bytes -> Bytes,
              parseFile: Bytes -> Option<ParsedFile>, parseDocument: Bytes -> Option<ParsedDocument>)
    returns (r: Option<ParsedBatch>)
    requires DescriptorOk(d)
    ensures r.Some? ==> HoldsBatch(r.value, d, recorded, p, sha, parseFile, parseDocument)
    ensures r.Some? ==>
              var m, b := p.manifest, r.value;
              && m == recorded && m.formatVersion == 1 && m.batchId == d.batchId && m.documentCount == d.documentCount
              && m.firstArchiveId == d.firstArchiveId && m.lastArchiveId == d.lastArchiveId
              && m.parsedFileCount + m.failedFileCount == m.sourceFileCount == d.sourceFileCount
              && sha(p.archives) == m.archivesSha256 && |p.archives| <= 1073741824
              && sha(p.documents) == m.documentsSha256 && |p.documents| <= 1073741824
              && b.descriptor == d && |b.files| == m.parsedFileCount > 0 && |b.documents| == m.documentCount
              && (forall i, j :: 0 <= i < j < |b.files| ==>
                    b.files[i].archive.archiveId != b.files[j].archive.archiveId)
              && (forall i :: 0 <= i < |b.files| ==>
                    && 0 < d.firstArchiveId <= b.files[i].archive.archiveId <= d.lastArchiveId
                    && 0 < |b.files[i].archive.relativePath| <= 512 && b.files[i].archive.fileSize > 0
                    && CountOf(b.documents, b.files[i].archive.archiveId) == b.files[i].documentCount)
              && (forall i :: 0 <= i < |b.documents| ==>
                    && b.documents[i].localId == i && b.documents[i].byteLength > 0
                    && LiesInSome(b.documents[i], b.files))
    ensures r == None ==> forall b: ParsedBatch :: !HoldsBatch(b, d, recorded, p, sha, parseFile, parseDocument)
  {
    hide AreRows, BatchOk, Parses, LiesInSome;
    var m := p.manifest;
    if m != recorded || !ParsedManifestOk(m, d) {
      return None;
    }
    if !ContentOk(p.archives, m.archivesSha256, sha) || !ContentOk(p.documents, m.documentsSha256, sha) {
      return None;
    }
    var archiveRows := SplitRows(p.archives);
    var documentRows := SplitRows(p.documents);
    if archiveRows == None || documentRows == None {
      return None;
    }
    var files := ParseRows(archiveRows.value, parseFile);
    var documents := ParseRows(documentRows.value, parseDocument);
    forall b: ParsedBatch | HoldsBatch(b, d, recorded, p, sha, parseFile, parseDocument)
      ensures files.Some? && documents.Some? && b.files == files.value && b.documents == documents.value
    {
      RowsRead(b.files, p.archives, archiveRows.value, parseFile);
      RowsRead(b.documents, p.documents, documentRows.value, parseDocument);
      if files.Some? && documents.Some? {
        ParsedUnique(b.files, files.value, archiveRows.value, parseFile);
        ParsedUnique(b.documents, documents.value, documentRows.value, parseDocument);
      }
    }
    if files == None || documents == None {
      return None;
    }
    r := CheckRows(d, m.parsedFileCount, m.failedFileCount, files.value, documents.value);
    if r.Some? {
      HoldsMean(r.value, d, recorded, p, sha, parseFile, parseDocument);
    }
  }

  lemma RowsRead<T>(items: seq<T>, content: Bytes, rows: seq<Bytes>, parse: Bytes -> Option<T>)
    requires AreRows(rows, content) && exists others :: AreRows(others, content) && Parses(items, others, parse)
    ensures Parses(items, rows, parse)
  {
    var others :| AreRows(others, content) && Parses(items, others, parse);
    RowsUnique(rows, others);
  }

  lemma ParsedUnique<T>(items: seq<T>, others: seq<T>, rows: seq<Bytes>, parse: Bytes -> Option<T>)
    requires Parses(items, rows, parse) && Parses(others, rows, parse)
    ensures items == others
  {
    forall i | 0 <= i < |rows|
      ensures items[i] == others[i]
    {
      assert Some(items[i]) == Some(others[i]);
    }
  }

  // ---------------------------------------------------------------- conservation

  function TotalOf(files: seq<ParsedFile>, documents: seq<ParsedDocument>): nat {
    if files == [] then 0
    else TotalOf(files[..|files| - 1], documents) + CountOf(documents, files[|files| - 1].archive.archiveId)
  }

  predicate Names(files: seq<ParsedFile>, archiveId: U64) {
    exists k :: 0 <= k < |files| && files[k].archive.archiveId == archiveId
  }

  lemma {:induction false} TotalExtend(files: seq<ParsedFile>, documents: seq<ParsedDocument>, d: ParsedDocument)
    requires forall i, j :: 0 <= i < j < |files| ==> files[i].archive.archiveId != files[j].archive.archiveId
    ensures TotalOf(files, documents + [d])
         == TotalOf(files, documents) + if Names(files, d.archiveId) then 1 else 0
  {
    if files != [] {
      var k := |files| - 1;
      TotalExtend(files[..k], documents, d);
      assert (documents + [d])[..|documents|] == documents;
      NamesSnoc(files, d.archiveId);
      if Names(files[..k], d.archiveId) {
        var i :| 0 <= i < k && files[..k][i].archive.archiveId == d.archiveId;
        assert files[i].archive.archiveId == d.archiveId;
      }
    }
  }

  lemma NamesSnoc(files: seq<ParsedFile>, archiveId: U64)
    requires files != []
    ensures Names(files, archiveId)
       <==> Names(files[..|files| - 1], archiveId) || files[|files| - 1].archive.archiveId == archiveId
  {
    var k := |files| - 1;
    assert forall i :: 0 <= i < k ==> files[..k][i] == files[i];
    if Names(files[..k], archiveId) {
      var i :| 0 <= i < k && files[..k][i].archive.archiveId == archiveId;
      assert files[i].archive.archiveId == archiveId;
    }
  }

  lemma {:induction false} TotalNothing(files: seq<ParsedFile>)
    ensures TotalOf(files, []) == 0
  {
    if files != [] {
      TotalNothing(files[..|files| - 1]);
    }
  }

  lemma {:induction false} TotalIsAll(files: seq<ParsedFile>, documents: seq<ParsedDocument>)
    requires forall i, j :: 0 <= i < j < |files| ==> files[i].archive.archiveId != files[j].archive.archiveId
    requires forall i :: 0 <= i < |documents| ==> Names(files, documents[i].archiveId)
    ensures TotalOf(files, documents) == |documents|
  {
    if documents == [] {
      TotalNothing(files);
    } else {
      var k := |documents| - 1;
      TotalIsAll(files, documents[..k]);
      TotalExtend(files, documents[..k], documents[k]);
      assert documents == documents[..k] + [documents[k]];
    }
  }

  function Recorded(files: seq<ParsedFile>): nat {
    if files == [] then 0 else Recorded(files[..|files| - 1]) + files[|files| - 1].documentCount
  }

  lemma {:induction false} RecordedIsTotal(files: seq<ParsedFile>, documents: seq<ParsedDocument>)
    requires CountsOk(files, documents)
    ensures Recorded(files) == TotalOf(files, documents)
  {
    if files != [] {
      var k := |files| - 1;
      assert forall i :: 0 <= i < k ==> files[..k][i] == files[i];
      RecordedIsTotal(files[..k], documents);
    }
  }

  /** No document is counted twice or left out: the recorded per-file counts add up to all of them. */
  lemma CountsAddUp(b: ParsedBatch)
    requires BatchOk(b)
    ensures Recorded(b.files) == |b.documents| == b.descriptor.documentCount
  {
    RecordedIsTotal(b.files, b.documents);
    forall i | 0 <= i < |b.documents|
      ensures Names(b.files, b.documents[i].archiveId)
    {
      assert ParsedDocumentOk(b.files, b.documents, i);
      var k :| 0 <= k < |b.files| && Matches(b.documents[i], b.files[k].archive);
    }
    TotalIsAll(b.files, b.documents);
  }
}
