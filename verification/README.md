# A verified model of the upload service and the log search

This project models two services in Dafny and proves what they are built to guarantee.

**DataStream** accepts files in chunks over unreliable links. Six Lua scripts keep the state of an upload in Redis,
chunk writers and completers work on one temporary file, and a verified file is renamed into the archive and recorded
in MySQL. A Collector on the other side keeps tasks and payload snapshots in a spool and drives the uploads.

**LogTrace** indexes the archived logs. It splits and parses archives, builds immutable Segments in a binary format,
publishes them by rename and a state database, and answers ranked queries from a snapshot, with caches in front.

## How it is modelled

| files | what they hold |
|---|---|
| `ChunkLayout`, `ChunkBitmap`, `UploadScripts` | chunk arithmetic, the Redis bitmap, the six scripts on session, bitmap, digests and quota sets |
| `UploadProtocol`, `UploadServer`, `UploadGuarantees` | one upload and the whole server as state machines with any number of writers and completers, cleanup, expiry and crashes; what holds over all runs |
| `UploadRetry`, `UploadResume`, `UploadPaths`, `UploadStranding` | exactly when a complete and a chunk request succeed; that every open upload can be finished; paths along every run; the run in which it never can |
| `ArchiveStorage` | the write, digest and verify-and-move loops on arrays and files |
| `CollectorTask`, `CollectorWorld`, `CollectorLoss` | the Collector as a class, Collector and server together under crashes, and a run in which a lost session fails a task |
| `Ranking`, `Sorting`, `ArchiveListing`, `ArchiveCursor` | orders and their unique listings, keyset paging, the base64url cursor |
| `Terms`, `LineSplitter`, `Utf8`, `CsvRow` | tokenizer, streaming line splitter, UTF-8 validator, CSV reader |
| `BinaryRecords`, `SegmentTables`, `SegmentRecords`, `SegmentPostings` | the binary tables, their readers and writers, the inverted index and its flat form |
| `ParsedBatches`, `SegmentBuild`, `SegmentLoad`, `LargeBatches`, `BuiltIndex` | the checks on parsed batches, the build of a Segment, the load of its directory, and batches too large for it |
| `SearchIndex`, `SearchHits`, `SearchTop`, `SearchEngine`, `SearchPages`, `SearchOriginals` | lookups, the naive scan that a search must equal, the bounded queue, the search, and all of it from the archived files on |
| `QueryCache`, `Slru` | snapshot lookup, query cache, segmented LRU |
| `IndexTables`, `IndexLifecycle`, `IndexSafety`, `IndexRebuild`, `IndexSnapshots`, `IndexProgress`, `SegmentRecovery` | the state database, the batch and Segment life cycle under crashes and rebuilds, query snapshots, what the worker can always finish, the loops of recovery |

A script, an SQL statement, a rename, an unlink and a positioned write are one step each; everything between two of
them may be interleaved with the steps of others or cut off by a crash. An SQL statement or a call that fails is a
step that stops its process, except where the code goes on past it. SHA-256 is a constructor of the type `Digest`, or a function parameter where only its
value matters, so digests collide for equal contents only. Upload ids, archive ids, manifest digests, paths and
inverse document frequencies come from outside as parameters. Bytes are numbers below 256; masks and shifts are
written as remainders, quotients and sums of disjoint bits. Machine words have their widths as subset types
(`U32`, `U64`, `I64`), and exceptions are `None` or `false`.

## Findings

These promises hold only under a condition, which is proved exactly:

- Repeating a complete request does not always finish an upload. Two requests that both looked the session up while it
  was open compute their own paths. If their dates differ and the second renames the file and stops, the session
  records one path and the file lies at the other. As long as all requests of the upload choose one path, this cannot
  happen and a request succeeds whenever session, chunks and file allow it (`UploadPaths.OnePathCompletes`,
  `OnePathStrandsNothing`). For any two different paths there is a run in which it happens
  (`UploadStranding.TwoPathsCanStrand`), and then nothing repairs it (`UploadPaths.StrandedForever`). The safety claims
  do not depend on it: no wrong answer is ever given. `01_SMT_DataStream/README.md:103-104` calls the path deterministic
  and says that a repeated request returns the same archive id; the model follows the code.
- `01_SMT_DataStream/README.md:103` says that after the loss of a session the Collector creates a new one for the same
  task. It does if and only if the first call of a pass, the query or the completion, finds the session lost. When the
  upload of a chunk is the first to find it, the task is FAILED for good (`CollectorTask.LostSessionRestartsIff`, and a
  run of both sides in `CollectorLoss.SessionLossCanFail`); the payload stays in the spool.
- An archive row that says INDEXED is searched, unless a rebuild of its batch stopped between its two updates. Over
  every run all of them are searched if and only if no rebuild of a batch with an INDEXED archive is cut off there
  (`IndexRebuild.IndexedIsSearchedIff`); a run in which one is cut off is in `RebuildCutHappens`. Such an archive stays
  INDEXED in a FAILED batch exactly until a rebuild of that batch makes its second update (`LostUntilRepaired`), so at
  least until one is requested (`LostUntilRequested`), and a request for it repairs it (`RequestRepairs`).
- The cursor decoder ignores the low four bits of the last character (`ArchiveCursor.CanonicalIff`), so sixteen texts
  stand for every cursor (`SixteenTexts`). Cursors that the service hands out are not affected.
- `termFrequency` checks its result against the whole posting array. For candidates, the only documents it is called
  for, it is exact; for others `SearchIndex.FrequencyExactIff` gives the condition and `WrongForOthers` an example.
- A batch with a table over 2 GiB is built but refused by the self-check of its own directory
  (`SegmentLoad.BuiltSegmentLoads`); for postings.bin that is from 268435454 postings on (`TooManyPostings`). Such
  batches exist within the limits of `02_SMT_LogTrace/conf/logtrace.json:47-48`: 100000 documents with 2700 distinct
  terms in each are one (`LargeBatches.RefusedWithinLimits`).
- The pagination check of the search service adds two 32-bit numbers, and lets through what the search refuses exactly
  when the sum wraps around (`QueryCache.PaginationWraps`, an example in `LastOffsetWraps`). The search then throws and
  stores no page, so the cache is not affected.

## Model

| member | source | states |
|---|---|---|
| ChunkLayout.LengthsAgree | 01_SMT_DataStream/src/collector/http_uploader.cpp:49-67 | the length the Collector reads for a chunk is the length the server expects, for every chunk number, file size and chunk size |
| ChunkLayout.Tiling | 01_SMT_DataStream/src/upload/upload_model.cpp:174 | every position of the file lies in exactly one chunk, and no chunk reaches beyond the file |
| ChunkLayout.StartsCut | 01_SMT_DataStream/src/api/upload_controller.cpp:388-397 | the cut points of the server split every non-empty file into pieces of exactly the expected lengths |
| ChunkBitmap.SetThenContains | 01_SMT_DataStream/src/upload/upload_repository.cpp:364-371 | after SETBIT exactly that chunk and those before are reported present |
| ChunkBitmap.SetBitAdds | 01_SMT_DataStream/src/upload/upload_repository.cpp:40-47 | SETBIT adds the chunk to the set of finished chunks; the scripts run on the bitmap, the protocol on the set |
| ChunkBitmap.BitCountIsSize | 01_SMT_DataStream/src/upload/upload_repository.cpp:49-56 | BITCOUNT is the number of finished chunks |
| ChunkBitmap.FullBitmap | 01_SMT_DataStream/src/upload/upload_repository.cpp:49-56 | when only chunk numbers are set, the bit count equals the chunk count if and only if no chunk is missing |
| UploadScripts.ReservedBytes | 01_SMT_DataStream/src/upload/upload_repository.cpp:24-26 | the loop of the create script adds up the sizes of all members of the global set |
| UploadScripts.RedisUploadStore.CreateSession | 01_SMT_DataStream/src/upload/upload_repository.cpp:16-29 | the create script: exactly when each refusal comes, the cleaning of expired members even when it refuses, and the whole new state |
| UploadScripts.RedisUploadStore.BeginChunk | 01_SMT_DataStream/src/upload/upload_repository.cpp:31-38 | the begin-chunk script: exactly when each answer comes; a granted digest is registered and the digests live on, and nothing else changes |
| UploadScripts.BeginChunkIff | 01_SMT_DataStream/src/upload/upload_repository.cpp:31-38 | in an open session a chunk is granted if and only if nobody has registered it, or this digest is registered and the chunk not finished; it conflicts if and only if another digest is registered |
| UploadScripts.RedisUploadStore.FinishChunk | 01_SMT_DataStream/src/upload/upload_repository.cpp:40-47 | the finish-chunk script: succeeds exactly for the registered digest of an open session, sets the bit, extends all keys and charges the quota |
| UploadScripts.RedisUploadStore.BeginComplete | 01_SMT_DataStream/src/upload/upload_repository.cpp:49-56 | the begin-complete script: exactly when each answer comes; freezes once, under the first path and time |
| UploadScripts.RedisUploadStore.MarkFailed | 01_SMT_DataStream/src/upload/upload_repository.cpp:58-64 | the mark-failed script and its whole new state |
| UploadScripts.RedisUploadStore.MarkArchived | 01_SMT_DataStream/src/upload/upload_repository.cpp:66-72 | the mark-archived script and its whole new state |
| UploadProtocol.StepInv | 01_SMT_DataStream/src/api/upload_controller.cpp:566-751 | every step of every writer, completer and of the cleanup keeps the invariant; no step changes a finished chunk, a frozen file, an archived path or a row |
| UploadProtocol.CreateInv | 01_SMT_DataStream/src/upload/upload_repository.cpp:27-29 | creating the session of a freshly allocated upload starts the invariant |
| UploadProtocol.ElapseInv | 01_SMT_DataStream/src/upload/upload_repository.cpp:31-47 | expiry of keys, in any order of time, keeps the invariant: the digests never die before the session |
| UploadProtocol.GrantInv | 01_SMT_DataStream/src/upload/upload_repository.cpp:31-38 | granting a chunk with its digest registered keeps the invariant, part of which is that whoever may write holds the registered content |
| UploadProtocol.PwriteFresh | 01_SMT_DataStream/src/api/upload_controller.cpp:149-171 | a partial write into an open chunk keeps every other chunk and what every other descriptor wrote |
| UploadProtocol.PwriteDone | 01_SMT_DataStream/src/api/upload_controller.cpp:149-171 | a late write into a finished chunk, before or after freeze and rename, writes the bytes that are there |
| UploadProtocol.FinishedInv | 01_SMT_DataStream/src/upload/upload_repository.cpp:40-47 | setting a bit keeps the invariant, part of which is that the region of a set bit holds the registered content |
| UploadProtocol.FrozenInv | 01_SMT_DataStream/src/upload/upload_repository.cpp:49-56 | freezing on the bit count keeps the invariant, part of which is that every chunk of a frozen file is finished |
| UploadProtocol.RenamedInv | 01_SMT_DataStream/src/archive/archive_storage.cpp:84-105 | moving a verified file keeps the invariant, and an archived path stays |
| UploadProtocol.InsertInv | 01_SMT_DataStream/src/archive/archive_repository.cpp:104-135 | the insert, which may find a row, keeps the invariant: at most one row, which tells the truth about the file at its path |
| UploadProtocol.ArchivedInv | 01_SMT_DataStream/src/api/upload_controller.cpp:76-89 | marking archived, at any later time, keeps the invariant: the session agrees with the row |
| UploadProtocol.FailedInv | 01_SMT_DataStream/src/upload/upload_repository.cpp:58-64 | marking failed keeps the invariant: a failed session has a file without the announced digest, and no row |
| UploadProtocol.CleanerStepInv | 01_SMT_DataStream/src/cleanup/cleanup_service.cpp:113-138 | the cleanup thread, between its lookup, unlink and delete, keeps the invariant |
| UploadServer.ApplyInv | 01_SMT_DataStream/src/api/upload_controller.cpp:566-751 | one step of the whole server keeps all uploads, the uniqueness of archive ids and the quotas |
| UploadServer.AbandonUploads | 01_SMT_DataStream/src/api/upload_controller.cpp:289-314 | a create request that is not told of success unlinks its file, even when the script has taken effect: all uploads stay in order |
| UploadServer.StepEffect | 01_SMT_DataStream/src/upload/upload_repository.cpp:58-72 | session state, expiry and quota entry of an upload change together; a session that was archived is never marked failed |
| UploadServer.CreateQuota | 01_SMT_DataStream/src/upload/upload_repository.cpp:16-29 | an admitted session is charged everywhere and fits all limits |
| UploadServer.StepQuota | 01_SMT_DataStream/src/upload/upload_repository.cpp:40-72 | finish, fail and archive keep every live session charged until its own expiry and all limits kept |
| UploadServer.TickQuota | 01_SMT_DataStream/src/upload/upload_repository.cpp:16-29 | time alone never makes a live session uncharged |
| UploadGuarantees.RunInv | 01_SMT_DataStream/src/api/upload_controller.cpp:566-751 | uploads, archive ids and quotas are in order after every run of the server |
| UploadGuarantees.RunKeeps | 01_SMT_DataStream/src/api/upload_controller.cpp:566-751 | whatever a prefix of a run established stays for the rest of the run |
| UploadGuarantees.SetBitsAreTrue | 01_SMT_DataStream/src/upload/upload_repository.cpp:31-47 | in every reachable state a set bit means the region holds exactly the content of its registered digest, and no later step changes it |
| UploadGuarantees.FrozenFileIsFinal | 01_SMT_DataStream/src/upload/upload_repository.cpp:49-56 | a frozen file is complete and never changes again |
| UploadGuarantees.AnswersAgree | 01_SMT_DataStream/src/api/upload_controller.cpp:566-751 | at most one row per upload; every success carries its id; its path holds a file of its size and digest; a failed session has no row |
| UploadGuarantees.VerdictsAgree | 01_SMT_DataStream/src/archive/archive_storage.cpp:125-149 | no completer accepts a file that another rejects |
| UploadGuarantees.RowsAreFinal | 01_SMT_DataStream/src/archive/archive_repository.cpp:104-135 | rows and archived files never change, and ids belong to one upload |
| UploadGuarantees.MembersCountSessions | 01_SMT_DataStream/src/upload/upload_repository.cpp:26-29 | members of the quota sets do not merge sessions |
| UploadGuarantees.LiveWithinLimits | 01_SMT_DataStream/src/upload/upload_repository.cpp:16-29 | over all runs the live sessions stay within the global, device, collector and byte limits |
| UploadGuarantees.ArchivedFreesQuota | 01_SMT_DataStream/src/upload/upload_repository.cpp:66-72 | over every run an archived session is in none of its three quota sets |
| UploadRetry.RetrySucceedsIff | 01_SMT_DataStream/src/api/upload_controller.cpp:566-751 | in every state of an upload, an undisturbed complete request succeeds if and only if the session is alive and has not failed, an open one has all chunks, and there is a row or a file with the announced digest in the temporary directory or at the path the request goes on with; the answer is the id of the row |
| UploadRetry.CleanedIff | 01_SMT_DataStream/src/cleanup/cleanup_service.cpp:113-138 | an undisturbed pass of the cleanup unlinks the temporary file if and only if its session is missing or over, with the keys of a session that is over, and touches nothing else |
| UploadResume.ChunkSucceedsIff | 01_SMT_DataStream/src/api/upload_controller.cpp:388-445 | in every state of an upload, an undisturbed chunk request is acknowledged if and only if the session is open, the chunk number and body length fit, no other content is registered, and the temporary file is there or the chunk finished; then the chunk holds the body, its bit is set, and every other chunk is as it was |
| UploadResume.EveryUploadCanFinish | 01_SMT_DataStream/src/api/upload_controller.cpp:388-751 | over every run, an open upload whose registered chunks are chunks of the announced content is finished by sending all chunks and a complete request, wherever earlier requests have stopped: success with the id of the only row, whose file is that content |
| UploadPaths.RunNamed | 01_SMT_DataStream/src/api/upload_controller.cpp:602-608 | in every reachable state requests, rows, sessions and archived files carry only paths that complete requests of the upload have brought along |
| UploadPaths.OnePathCompletes | 01_SMT_DataStream/src/api/upload_controller.cpp:602-751 | over every run in which all complete requests of an upload bring the same path along, a complete request succeeds if and only if the session is alive, an open one has all chunks, and the file is there with the announced digest |
| UploadPaths.OnePathStrandsNothing | 01_SMT_DataStream/src/api/upload_controller.cpp:602-608 | with one path no file is stranded in any reachable state with an open verification |
| UploadPaths.StrandedForever | 01_SMT_DataStream/src/api/upload_controller.cpp:566-751 | over every run, a file renamed to a path other than the recorded one never gets a row and no complete request succeeds any more |
| UploadStranding.TwoPathsCanStrand | 01_SMT_DataStream/src/api/upload_controller.cpp:602-608 | for any two different paths, as two requests on either side of midnight choose them, there is a run from the start of the server that strands a complete file with the announced digest |
| ArchiveStorage.WriteChunk | 01_SMT_DataStream/src/api/upload_controller.cpp:149-171 | whatever the calls return, a prefix of the body is written and nothing else; success means all of it, and comes whenever no call fails |
| ArchiveStorage.DigestFile | 01_SMT_DataStream/src/archive/archive_storage.cpp:50-110 | the digest over page-aligned windows is the digest of the whole content, or an I/O error that some call has caused |
| ArchiveStorage.StoredFile.VerifyAndArchive | 01_SMT_DataStream/src/archive/archive_storage.cpp:125-149 | whatever calls fail: archived only with the announced size and digest, rejected only without them, moved only when archived, and an I/O error has a cause |
| CollectorTask.BackoffDelay | 01_SMT_DataStream/src/collector/collector_app.cpp:382-391 | the retry delay doubles with each attempt and is cut at the maximum |
| CollectorTask.CollectorAgent.ProcessTask | 01_SMT_DataStream/src/collector/collector_app.cpp:305-380 | one pass over a task: exactly when it fails, waits for a retry, starts over or moves on, by the answer that decides; the saved state follows and the payload goes only with a task saved as DONE |
| CollectorTask.PassSays | 01_SMT_DataStream/src/collector/collector_app.cpp:311-379 | what the deciding answer makes of an active task: FAILED if and only if it is neither success nor retryable nor a lost session found by the first call; after a retryable answer only attempts, time and error change |
| CollectorTask.UploadMissing | 01_SMT_DataStream/src/collector/collector_app.cpp:340-352 | the loop over the missing chunks of the query succeeds if and only if the upload of every one of them did, and otherwise ends with the first that failed |
| CollectorTask.LostSessionRestartsIff | 01_SMT_DataStream/src/collector/collector_app.cpp:325-379 | when the server has lost the session the task starts over if and only if the first call of the pass finds that out; otherwise it is FAILED |
| CollectorTask.LostAtChunkFails | 01_SMT_DataStream/src/collector/collector_app.cpp:340-379 | such a pass from every uploading task |
| CollectorWorld.ServeInv | 01_SMT_DataStream/src/collector/collector_app.cpp:305-371 | steps of the server keep what the agent relies on |
| CollectorWorld.AgentInv | 01_SMT_DataStream/src/collector/collector_app.cpp:265-371 | steps and crashes of the agent keep what its saved tasks rely on |
| CollectorWorld.RunsInv | 01_SMT_DataStream/src/collector/collector_app.cpp:265-371 | what tasks, spool and server say of each other agrees after every run |
| CollectorWorld.DoneMeansArchived | 01_SMT_DataStream/src/collector/spool_store.cpp:309-321 | over every run with crashes of either side, a DONE task has one archive row whose file is its payload, and an active saved task still has its payload |
| CollectorWorld.StepFails | 01_SMT_DataStream/src/collector/collector_app.cpp:220-380 | a step makes a task FAILED if and only if its source is refused or has changed, its device is not configured, or the deciding answer is a rejection |
| CollectorWorld.FailedHasCause | 01_SMT_DataStream/src/collector/collector_app.cpp:220-380 | over every run with crashes, a task that is FAILED was made so by such an event |
| CollectorWorld.FinalStays | 01_SMT_DataStream/src/collector/collector_app.cpp:293-303 | over every run with crashes, a task saved as DONE or FAILED never changes again |
| CollectorLoss.SessionLossCanFail | 01_SMT_DataStream/src/collector/collector_app.cpp:340-379 | a run of both sides from their start in which a session dies between query and chunk: the task is FAILED with its payload still in the spool, and there is neither a session nor a row |
| ArchiveListing.CutPage | 01_SMT_DataStream/src/archive/archive_repository.cpp:170-191 | one row more than the page size means there is a next page |
| ArchiveListing.ListPage | 01_SMT_DataStream/src/archive/archive_repository.cpp:137-191 | the callback returns the page of the filtered, ordered table after the cursor |
| ArchiveListing.NextPage | 01_SMT_DataStream/src/archive/archive_repository.cpp:150-168 | the keyset condition selects exactly what comes after the last row of a page |
| ArchiveListing.FollowingListsEverythingOnce | 01_SMT_DataStream/src/api/archive_controller.cpp:206-211 | following cursor values lists every record that each given filter admits exactly once, newest first, and ends |
| ArchiveCursor.FollowingTextsListsEverythingOnce | 01_SMT_DataStream/src/api/archive_controller.cpp:130-135 | the same for a client that sends the text of next_cursor back, through encoding and decoding |
| ArchiveCursor.EncodeCursor | 01_SMT_DataStream/src/common/archive_cursor.cpp:17-34 | the loops fill the big-endian bytes and give their unpadded base64url text |
| ArchiveCursor.UrlAlphabet | 01_SMT_DataStream/src/common/archive_cursor.cpp:17-34 | the alphabet of the URL-safe text |
| ArchiveCursor.DecodeCursor | 01_SMT_DataStream/src/common/archive_cursor.cpp:36-69 | decoding by character replacement and block decoding is the decoding of the text; only 22 characters of the alphabet with a positive time and id are accepted |
| ArchiveCursor.CursorRoundTrip | 01_SMT_DataStream/src/common/archive_cursor.cpp:17-69 | the cursor comes back for every positive time and id |
| ArchiveCursor.CanonicalIff | 01_SMT_DataStream/src/common/archive_cursor.cpp:36-69 | an accepted text is the text of its cursor if and only if the low four bits of its last character are zero |
| ArchiveCursor.SixteenTexts | 01_SMT_DataStream/src/common/archive_cursor.cpp:36-69 | for every cursor, changing those bits of its text gives fifteen other texts that decode to it |
| Terms.TokenizeTerms | 02_SMT_LogTrace/src/indexing/term_tokenizer.cpp:13-38 | the byte loop returns the maximal runs of term bytes in lower case |
| Terms.TokensSplit | 02_SMT_LogTrace/src/indexing/term_tokenizer.cpp:13-38 | a byte that is no term byte separates: the terms are those before it and those after it |
| Terms.SolidText | 02_SMT_LogTrace/src/indexing/term_tokenizer.cpp:13-38 | a text without such a byte is one term, with its capitals lowered |
| Terms.TokensAreNormal | 02_SMT_LogTrace/src/indexing/term_tokenizer.cpp:13-38 | every term is a non-empty run of lower-case letters, digits, underscores, hyphens and bytes from 0x80 on |
| Terms.TokenizingATerm | 02_SMT_LogTrace/src/indexing/term_tokenizer.cpp:13-38 | tokenising a term gives that term, so a query normalises to what the index holds |
| Terms.FrequenciesSum | 02_SMT_LogTrace/src/indexing/segment_store.cpp:752-767 | the frequencies of all terms of a document sum to its term count |
| BinaryRecords.FieldExact | 02_SMT_LogTrace/src/indexing/segment_store.cpp:166-249 | reading a number, digest or string succeeds with a value exactly when its bytes stand there |
| BinaryRecords.RecordExact | 02_SMT_LogTrace/src/indexing/segment_store.cpp:166-268 | a record is read exactly when the bytes of its fields stand there in order |
| BinaryRecords.RecordsExact | 02_SMT_LogTrace/src/indexing/segment_store.cpp:397-602 | a list of records is read exactly when their bytes stand there |
| BinaryRecords.BinaryReader.ReadWord | 02_SMT_LogTrace/src/indexing/segment_store.cpp:207-229 | bytes shifted into place give the little-endian number; a short rest is an exception |
| BinaryRecords.BinaryReader.ReadString | 02_SMT_LogTrace/src/indexing/segment_store.cpp:233-242 | the length prefix, its limit and the rest of the content decide |
| BinaryRecords.BinaryWriter.AppendWord | 02_SMT_LogTrace/src/indexing/segment_store.cpp:166-176 | appends the little-endian bytes of the number |
| BinaryRecords.LittleEndianAt | 02_SMT_LogTrace/src/indexing/segment_store.cpp:166-176 | byte i of a number holds its bits from 8 i on |
| BinaryRecords.BinaryWriter.AppendString | 02_SMT_LogTrace/src/indexing/segment_store.cpp:182-188 | appends length and bytes, or throws over the format limit |
| SegmentTables.HexRoundTrip | 02_SMT_LogTrace/src/indexing/segment_store.cpp:270-292 | the digest text comes back from its 32 bytes |
| SegmentTables.BytesRoundTrip | 02_SMT_LogTrace/src/indexing/segment_store.cpp:270-292 | 32 bytes come back from their digest text |
| SegmentTables.DecodeExact | 02_SMT_LogTrace/src/indexing/segment_store.cpp:397-602 | a table decodes to a list exactly when its content is what the list is written as; no other content and no trailing bytes are accepted |
| SegmentTables.Serialize | 02_SMT_LogTrace/src/indexing/segment_store.cpp:397-461 | fails exactly when some record does not fit the format, and otherwise writes the table |
| SegmentRecords.LoadFiles | 02_SMT_LogTrace/src/indexing/segment_store.cpp:463-485 | returns the decoded list if every id, size and path is allowed and no id repeats, and nothing otherwise |
| SegmentRecords.FilesExact | 02_SMT_LogTrace/src/indexing/segment_store.cpp:397-485 | files.bin: accepted with a list exactly when it is that list serialized and the list is valid |
| SegmentRecords.LoadDocuments | 02_SMT_LogTrace/src/indexing/segment_store.cpp:488-536 | returns the decoded list if every document is numbered in order, lies in its file and names where it is from, and nothing otherwise |
| SegmentRecords.DocumentsExact | 02_SMT_LogTrace/src/indexing/segment_store.cpp:410-536 | documents.bin: accepted with a list exactly when it is that list serialized and the list is valid |
| SegmentRecords.LoadPostings | 02_SMT_LogTrace/src/indexing/segment_store.cpp:540-557 | returns the decoded list if every posting names a document and has a frequency, and nothing otherwise |
| SegmentRecords.PostingsExact | 02_SMT_LogTrace/src/indexing/segment_store.cpp:439-557 | postings.bin: accepted with a list exactly when it is that list serialized and the list is valid |
| SegmentRecords.PostingsSize | 02_SMT_LogTrace/src/indexing/segment_store.cpp:439-448 | postings.bin has 20 bytes and 8 for each posting |
| SegmentRecords.LoadTerms | 02_SMT_LogTrace/src/indexing/segment_store.cpp:560-602 | accepts exactly strictly sorted terms whose ranges follow each other through all postings with increasing documents, and builds the lookup of every term |
| SegmentRecords.TermsExact | 02_SMT_LogTrace/src/indexing/segment_store.cpp:450-602 | terms.bin: accepted with a list exactly when it is that list serialized and the list is valid |
| SegmentRecords.TermsSorted | 02_SMT_LogTrace/src/indexing/segment_store.cpp:579-582 | the terms of an accepted table are strictly sorted |
| SegmentRecords.RangesPartition | 02_SMT_LogTrace/src/indexing/segment_store.cpp:579-600 | every posting belongs to the range of exactly one term |
| ParsedBatches.CheckFileRows | 02_SMT_LogTrace/src/indexing/parsed_batch_reader.cpp:278-292 | the loop accepts exactly distinct, valid archives inside the range of the batch |
| ParsedBatches.CheckDocumentRows | 02_SMT_LogTrace/src/indexing/parsed_batch_reader.cpp:294-318 | the loop accepts exactly contiguous, valid documents that match their archive, and counts them per file |
| ParsedBatches.SplitRows | 02_SMT_LogTrace/src/indexing/parsed_batch_reader.cpp:99-114 | returns the rows if and only if the content is non-empty rows, each ended by LF; there is only one way to read it |
| ParsedBatches.CheckRows | 02_SMT_LogTrace/src/indexing/parsed_batch_reader.cpp:248-321 | accepts the counts and rows if and only if they make a valid batch |
| ParsedBatches.Load | 02_SMT_LogTrace/src/indexing/parsed_batch_reader.cpp:204-325 | returns the batch if and only if manifest, digests, rows and cross-checks all hold of the directory |
| ParsedBatches.CountsAddUp | 02_SMT_LogTrace/src/indexing/parsed_batch_reader.cpp:295-321 | the recorded per-file counts add up to all documents |
| SegmentPostings.CountTerms | 02_SMT_LogTrace/src/indexing/segment_store.cpp:758-767 | the counting loop gives the multiplicity of every term |
| SegmentPostings.EnterDocument | 02_SMT_LogTrace/src/indexing/segment_store.cpp:768-771 | the loop enters the frequencies of one document into the inverted index |
| SegmentPostings.EnteredIsInverted | 02_SMT_LogTrace/src/indexing/segment_store.cpp:768-771 | entering the next document makes the exact term-frequency map of one text more |
| SegmentPostings.Flatten | 02_SMT_LogTrace/src/indexing/segment_store.cpp:802-821 | the flattened terms and postings are accepted by loading and un-flatten to the same map |
| SegmentPostings.UnflattenTerms | 02_SMT_LogTrace/src/indexing/segment_store.cpp:573-599 | in an accepted table each term has its own row and there are no others |
| SegmentBuild.ReadOriginalRecord | 02_SMT_LogTrace/src/indexing/original_log_reader.cpp:73-111 | the bytes of a document, or an exception outside the archived file |
| SegmentBuild.BuildDocument | 02_SMT_LogTrace/src/indexing/segment_store.cpp:742-800 | one document enters the Segment if its text still has the recorded number of terms |
| SegmentBuild.Build | 02_SMT_LogTrace/src/indexing/segment_store.cpp:719-821 | succeeds if and only if archives are intact, term counts agree and a term exists; records repeat what was parsed and the tables are those of the exact term-frequency map |
| SegmentLoad.Statistics | 02_SMT_LogTrace/src/indexing/segment_store.cpp:696-706 | total, smallest and largest value over the documents |
| SegmentLoad.LoadAtPath | 02_SMT_LogTrace/src/indexing/segment_store.cpp:605-714 | returns a Segment if and only if the directory is its serialization and every check holds; sizes, digests and counts are those of the expected manifest |
| SegmentLoad.OneSegment | 02_SMT_LogTrace/src/indexing/segment_store.cpp:605-714 | a directory holds at most one Segment |
| SegmentLoad.BuiltSegmentLoads | 02_SMT_LogTrace/src/indexing/segment_store.cpp:719-876 | what a build of a checked batch writes loads as what was built, if and only if no file is over the size limit |
| SegmentLoad.TooManyPostings | 02_SMT_LogTrace/src/indexing/segment_store.cpp:657-667 | a batch with more than 268435453 postings is built and then refused |
| LargeBatches.LargeBatchRefused | 02_SMT_LogTrace/src/indexing/segment_store.cpp:657-667 | for any number of documents, each with any number of distinct terms up to 10000, there is a checked batch that is built with one posting for every document and term; what is written cannot be loaded when these are more than 268435453 |
| LargeBatches.RefusedWithinLimits | 02_SMT_LogTrace/src/config/app_config.cpp:262-265 | there is such a batch of 100000 documents of at most 65536 bytes |
| SegmentLoad.Publish | 02_SMT_LogTrace/src/indexing/segment_store.cpp:823-876 | serialization and self-check succeed if and only if the strings fit the format and the files the limit |
| BuiltIndex.BuiltSegmentIndexes | 02_SMT_LogTrace/src/indexing/segment_store.cpp:719-876 | the Segment of a build indexes exactly the texts it was built from |
| BuiltIndex.DocumentFrequenciesSum | 02_SMT_LogTrace/src/indexing/segment_store.cpp:752-771 | in a built Segment the frequencies of one document over all terms sum to its term count |
| SearchOriginals.LoadedIndexes | 02_SMT_LogTrace/src/indexing/segment_manager.cpp:138-150 | a published Segment, loaded again, indexes exactly the texts of its batch |
| SearchOriginals.SearchLoaded | 02_SMT_LogTrace/src/search/search_engine.cpp:111-228 | a search over loaded Segments returns the page, by ranks, of the hits of the naive scan of the texts in the archived files |
| SearchOriginals.HitsAreOriginals | 02_SMT_LogTrace/src/search/search_engine.cpp:111-216 | the hits are exactly the documents whose bytes in the archived files contain every term of the query and whose record is what each of its filters asks for |
| SearchIndex.Lookup | 02_SMT_LogTrace/src/search/search_engine.cpp:125-130 | a term is found exactly when some document has it, and its record has the true document count and frequencies |
| SearchIndex.TermFrequency | 02_SMT_LogTrace/src/search/search_engine.cpp:74-90 | the binary search reads at the first posting not before the document |
| SearchIndex.CandidateFrequency | 02_SMT_LogTrace/src/search/search_engine.cpp:74-90 | for a document that has the term the search reads the true frequency |
| SearchIndex.FrequencyExactIff | 02_SMT_LogTrace/src/search/search_engine.cpp:74-90 | for any document it is the true frequency exactly unless all postings of the term lie before it and the next posting of the table belongs to it |
| SearchIndex.WrongForOthers | 02_SMT_LogTrace/src/search/search_engine.cpp:88-90 | a table that describes two texts, where the check against the whole array reads the next term's frequency for a document without the term |
| SearchIndex.SetIntersection | 02_SMT_LogTrace/src/search/search_engine.cpp:179-182 | the merge of two ascending lists is their intersection, ascending |
| SearchIndex.Candidates | 02_SMT_LogTrace/src/search/search_engine.cpp:162-184 | in whatever order the terms come, the candidates are exactly the documents with all of them |
| SearchHits.SumInAnyOrder | 02_SMT_LogTrace/src/search/search_engine.cpp:190-199 | the score does not depend on the order in which the terms are added |
| SearchHits.ScoreMeans | 02_SMT_LogTrace/src/search/search_engine.cpp:189-200 | the score of a hit from the texts alone: the weight of its record and the BM25 contribution of every term in any order, with the statistics of all Segments |
| SearchHits.ContributionOrder | 02_SMT_LogTrace/src/search/search_engine.cpp:22-23 | BM25 with k1 = 1.2 and b = 0.75: a term counts more when more frequent, less in a longer document, and less than 2.2 times its inverse document frequency |
| SearchHits.Weights | 02_SMT_LogTrace/src/search/search_engine.cpp:93-100 | 3 for the error code asked for, 1.5 for the module asked for, 2 for an error and 1 for a warning |
| SearchHits.StatisticsAdd | 02_SMT_LogTrace/src/search/search_engine.cpp:114-139 | document frequency, number of documents and total length add up over all Segments |
| SearchHits.AllHitsAre | 02_SMT_LogTrace/src/search/search_engine.cpp:111-216 | the hits of the naive scan: documents whose tokens contain every term and which pass the filters |
| SearchHits.DocIdUnique | 02_SMT_LogTrace/src/indexing/segment_store.cpp:779-780 | a document id names one document of one Segment of a snapshot |
| SearchTop.Consider | 02_SMT_LogTrace/src/search/search_engine.cpp:207-214 | one step of the bounded queue keeps the best of what was seen |
| SearchTop.TopSlice | 02_SMT_LogTrace/src/search/search_engine.cpp:217-227 | draining, sorting and cutting the queue gives the page of all that was seen: the item in place j has exactly offset + j better hits |
| SearchTop.OnPageIff | 02_SMT_LogTrace/src/search/search_engine.cpp:217-227 | a hit is on the page if and only if the number of better hits lies in the page |
| SearchEngine.NormalizedTerms | 02_SMT_LogTrace/src/search/search_engine.cpp:43-51 | the sorted set of the tokens of all keywords |
| SearchEngine.GlobalStatistics | 02_SMT_LogTrace/src/search/search_engine.cpp:118-139 | document frequencies, document count and average length are those of the texts of the snapshot |
| SearchEngine.Score | 02_SMT_LogTrace/src/search/search_engine.cpp:189-200 | the score of a candidate is the one computed from the texts alone |
| SearchPages.SearchSegment | 02_SMT_LogTrace/src/search/search_engine.cpp:144-216 | after each Segment queue and counter are those of the naive scan so far |
| SearchPages.Search | 02_SMT_LogTrace/src/search/search_engine.cpp:111-228 | the item in place j is the hit of the naive scan with exactly offset + j better ones, there are as many as fit the page, and total_hits counts all; or the exception about pagination |
| SearchPages.PageByRank | 02_SMT_LogTrace/src/search/search_engine.cpp:217-227 | length of the page, rank of every item, and a hit is an item if and only if its rank lies in the page |
| SearchPages.PageInOrder | 02_SMT_LogTrace/src/search/search_engine.cpp:26-34 | higher scores first, then later events, then higher ids |
| SearchPages.PagesConcatenate | 02_SMT_LogTrace/src/search/search_engine.cpp:140-227 | consecutive pages are one longer page, without gap or repeat |
| QueryCache.NewSnapshot | 02_SMT_LogTrace/src/indexing/index_snapshot.cpp:18-31 | accepts exactly increasing batch ids; the version is the last of them and the count that of all documents |
| QueryCache.FindDocument | 02_SMT_LogTrace/src/indexing/index_snapshot.cpp:43-65 | the early exits agree with a search over all documents, for every id |
| QueryCache.Key | 02_SMT_LogTrace/src/cache/query_cache.cpp:44-64 | the key holds version, sorted distinct terms and sorted levels |
| QueryCache.KeysAgree | 02_SMT_LogTrace/src/cache/query_cache.cpp:44-64 | keys are equal if and only if versions and normalised queries are |
| QueryCache.SameKeySamePage | 02_SMT_LogTrace/src/cache/query_cache.cpp:44-64 | queries with equal keys have equal pages on every snapshot |
| QueryCache.Serialize | 02_SMT_LogTrace/src/cache/query_cache.cpp:66-80 | the ids and scores of the page in order |
| QueryCache.Restore | 02_SMT_LogTrace/src/cache/query_cache.cpp:82-103 | restores the page the value was serialized from if it is of this version, at most 200 items and present; otherwise nothing |
| QueryCache.CacheIsTransparent | 02_SMT_LogTrace/src/search/search_engine.cpp:257-277 | what was stored, for a query whose page gets stored, restores, for any query with the same key, to exactly the page a search would return |
| QueryCache.PaginationWraps | 02_SMT_LogTrace/src/rpc/search_health_service.cpp:54-55 | a pagination that the entry point lets through is one the search allows if and only if the 32-bit sum did not wrap around |
| QueryCache.LastOffsetWraps | 02_SMT_LogTrace/src/rpc/search_health_service.cpp:54-55 | such a wrap happens: the search refuses what the entry point let through |
| Slru.SlruCache.Get | 02_SMT_LogTrace/include/logtrace/cache/slru_cache.h:38-56 | a hit returns the stored value and becomes the most recent protected key; when there is no room the oldest protected key goes to the front of probation; nothing else moves |
| Slru.SlruCache.Put | 02_SMT_LogTrace/include/logtrace/cache/slru_cache.h:61-77 | a new key enters the front of probation, whose oldest key is evicted only when there is no room; a known key is updated and comes to the front of its list |
| Slru.SlruCache.Erase | 02_SMT_LogTrace/include/logtrace/cache/slru_cache.h:82-92 | removes exactly the key and keeps the order of the others |
| Slru.HitMoves | 02_SMT_LogTrace/include/logtrace/cache/slru_cache.h:38-56 | what a hit moves, in each of the three cases |
| Slru.PutMoves | 02_SMT_LogTrace/include/logtrace/cache/slru_cache.h:61-77 | what storing a value moves and evicts, in each case |
| Slru.RunValid | 02_SMT_LogTrace/include/logtrace/cache/slru_cache.h:130-145 | on every run the map domain is the disjoint union of the lists and both capacities hold |
| Slru.GetEvictsNothing | 02_SMT_LogTrace/include/logtrace/cache/slru_cache.h:38-56 | get changes no value and evicts no entry |
| Slru.HitIsLastPut | 02_SMT_LogTrace/include/logtrace/cache/slru_cache.h:38-77 | on every run a hit returns the value of the last put since the last erase or clear |
| Slru.ScanResistant | 02_SMT_LogTrace/include/logtrace/cache/slru_cache.h:61-77 | no run of puts of keys outside the protected list disturbs that list or its values |
| Slru.PutEvictsOldest | 02_SMT_LogTrace/include/logtrace/cache/slru_cache.h:74-77 | putting a new key evicts at most the oldest key on probation |
| LineSplitter.SplitUnique | 02_SMT_LogTrace/src/indexing/archive_parser.cpp:400-424 | there is only one way to split a text at its line feeds |
| LineSplitter.SplitOfSplits | 02_SMT_LogTrace/src/indexing/archive_parser.cpp:400-424 | the split loses nothing, cuts at every line feed and gives true offsets |
| LineSplitter.BufferDecides | 02_SMT_LogTrace/src/indexing/archive_parser.cpp:402-423 | the bounded buffer decides LINE_TOO_LONG exactly: the line without its trailing CR is over the limit |
| LineSplitter.ParseArchive | 02_SMT_LogTrace/src/indexing/archive_parser.cpp:359-465 | whatever pieces the reads return: success if and only if the whole file was read, has its size and digest, all its lines are accepted and the check at the end agrees; otherwise the code of the first of these that fails, and no documents |
| LineSplitter.DocumentsSliceTheFile | 02_SMT_LogTrace/src/indexing/archive_parser.cpp:165-180 | the documents are of exactly the lines for which the profile says so, in order; each slices the file to its line without CR and LF, and tokenising the slice gives the term count |
| LineSplitter.FirstFailure | 02_SMT_LogTrace/src/indexing/archive_parser.cpp:86-93 | the loop over the lines fails if and only if one of them is rejected, and reports the code and number of the first |
| Utf8.ValidUtf8 | 02_SMT_LogTrace/src/indexing/archive_parser.cpp:44-84 | accepts exactly the encodings of sequences of Unicode scalar values (section 4 of RFC 3629) |
| Utf8.WellFormedIsEncoding | 02_SMT_LogTrace/src/indexing/archive_parser.cpp:52-81 | what passes the checks of one round is the encoding of a scalar value |
| Utf8.EncodingIsWellFormed | 02_SMT_LogTrace/src/indexing/archive_parser.cpp:52-81 | every encoding of a scalar value passes the checks |
| CsvRow.ParseCsvRow | 02_SMT_LogTrace/src/indexing/archive_parser.cpp:95-142 | the loop is the reader |
| CsvRow.ReadRow | 02_SMT_LogTrace/src/indexing/archive_parser.cpp:95-142 | reading inverts printing, whichever fields were quoted (section 2 of RFC 4180) |
| CsvRow.AcceptsExactlyPrintings | 02_SMT_LogTrace/src/indexing/archive_parser.cpp:95-142 | a row is accepted with a list of fields exactly when it is one of their printings |
| IndexSafety.AttachKeeps | 02_SMT_LogTrace/src/indexing/index_state_repository.cpp:241-256 | attaching a waiting or unseen archive keeps the table invariant: no two live batches hold the same archive |
| IndexSafety.PublishKeeps | 02_SMT_LogTrace/src/indexing/index_state_repository.cpp:378-390 | publishing keeps the table invariant: no archive of a READY batch is PARSED |
| IndexSafety.BuilderStepChanges | 02_SMT_LogTrace/src/indexing/segment_manager.cpp:34-136 | a step of the builder changes one batch in hand, no FAILED batch, and archives only from PARSED to INDEXED |
| IndexSafety.HolderStepChanges | 02_SMT_LogTrace/src/indexing/incremental_indexer.cpp:101-283 | a step under the lock changes batches only to FAILED or from PARSING to PARSED |
| IndexSafety.NewlyReady | 02_SMT_LogTrace/src/indexing/segment_manager.cpp:120-124 | a batch becomes READY only with the digest of its complete directory |
| IndexSafety.PublishNeverRefused | 02_SMT_LogTrace/src/indexing/index_state_repository.cpp:378-390 | in every reachable state a BUILDING batch has an attached archive, so publishing it changes its row |
| IndexSafety.HolderDirectories | 02_SMT_LogTrace/src/indexing/segment_store.cpp:902-906 | a rebuild removes files of a FAILED batch only |
| IndexSafety.FreshNext | 02_SMT_LogTrace/src/indexing/index_state_repository.cpp:190-214 | attaching the next eligible archive leaves the next ones after it |
| IndexSafety.StepInv | 02_SMT_LogTrace/src/indexing/segment_manager.cpp:34-150 | every step of builder, lock holder, source and crashes keeps the invariants |
| IndexSafety.ReadyIsLoadable | 02_SMT_LogTrace/src/indexing/segment_manager.cpp:138-150 | in every reachable state a READY batch has a complete directory with the recorded digest |
| IndexSafety.ReadyArchivesIndexed | 02_SMT_LogTrace/src/indexing/index_state_repository.cpp:378-390 | in every reachable state no archive of a READY batch is PARSED |
| IndexSafety.ReadyHoldsExactly | 02_SMT_LogTrace/src/indexing/incremental_indexer.cpp:243-261 | in every reachable state a READY batch holds the documents of exactly its INDEXED archives, and of at least one |
| IndexSafety.ReadyListLoads | 02_SMT_LogTrace/src/indexing/segment_manager.cpp:138-150 | in every reachable state each Segment a refresh lists can be loaded |
| IndexSafety.OneBatchPerArchive | 02_SMT_LogTrace/src/indexing/index_state_repository.cpp:241-256 | no archive contributes documents to two batches that are PARSED, BUILDING or READY |
| IndexSafety.NothingSkipped | 02_SMT_LogTrace/src/indexing/incremental_indexer.cpp:101-183 | no eligible archive up to the largest observed id is without a row |
| IndexRebuild.IndexedIsSearchedIff | 02_SMT_LogTrace/src/indexing/index_state_repository.cpp:423-448 | over every run, each INDEXED archive is at all times in a READY batch, or in one that is between the two updates of its rebuild, if and only if no rebuild of a batch with an INDEXED archive is cut off there |
| IndexRebuild.StepIndexedIff | 02_SMT_LogTrace/src/indexing/index_state_repository.cpp:437-446 | the same for one step of any actor |
| IndexRebuild.LosesMeansLost | 02_SMT_LogTrace/src/indexing/index_state_repository.cpp:437-446 | such a cut leaves an INDEXED archive in a FAILED batch that nobody is rebuilding |
| IndexRebuild.LostUntilRepaired | 02_SMT_LogTrace/src/indexing/index_state_repository.cpp:437-446 | along every run an INDEXED archive of a FAILED batch stays so if and only if no second update of a rebuild of that batch happens |
| IndexRebuild.LostUntilRequested | 02_SMT_LogTrace/src/indexing/index_state_repository.cpp:423-436 | along every run it stays so as long as no rebuild is requested for an archive of that batch |
| IndexRebuild.RequestRepairs | 02_SMT_LogTrace/src/indexing/index_state_repository.cpp:423-448 | an undisturbed request for it can take all its steps and makes it wait for the next scan |
| IndexRebuild.RebuildCutHappens | 02_SMT_LogTrace/src/indexing/index_state_repository.cpp:437-446 | a run from the empty database that ends so |
| IndexSafety.RecoveryLeavesNoBuilding | 02_SMT_LogTrace/src/indexing/segment_manager.cpp:34-70 | when the recovery loop ends no batch is BUILDING |
| IndexSafety.FailedStaysFailed | 02_SMT_LogTrace/src/indexing/index_state_repository.cpp:423-447 | FAILED is absorbing over every run |
| IndexSnapshots.SnapshotWasReadyAtOnce | 02_SMT_LogTrace/src/indexing/segment_manager.cpp:138-150 | all Segments of a snapshot were READY with their digests at one and the same state of the run, where no two of them hold documents of one archive |
| IndexSafety.ReachableTables | 02_SMT_LogTrace/src/indexing/segment_manager.cpp:34-70 | every reachable state has the tables that recovery asks for |
| SegmentRecovery.SegmentManager.RecoverBuildingBatches | 02_SMT_LogTrace/src/indexing/segment_manager.cpp:34-70 | on tables that keep the invariant the loop ends: each BUILDING batch becomes PARSED, READY or FAILED by its directory, none stays BUILDING, and nothing else changes |
| SegmentRecovery.SegmentManager.RecoverOne | 02_SMT_LogTrace/src/indexing/segment_manager.cpp:40-69 | one round: what becomes of the batch, and exactly when an update changes no row |
| SegmentRecovery.SegmentManager.RefreshSnapshot | 02_SMT_LogTrace/src/indexing/segment_manager.cpp:138-150 | all READY Segments with their recorded digests, or the old snapshot |
| SegmentRecovery.RecoverInterrupted | 02_SMT_LogTrace/src/indexing/index_state_repository.cpp:402-421 | every PARSING batch and its archives become FAILED, nothing else changes |
| SegmentRecovery.TakeOutcomes | 02_SMT_LogTrace/src/indexing/incremental_indexer.cpp:131-165 | an archive with more documents than the limit is recorded as failed and every other one as it is; the scan stops only before one that does not fit beside those before it, and takes at least one |
| SegmentRecovery.DocumentsAdd | 02_SMT_LogTrace/src/indexing/incremental_indexer.cpp:163-165 | the counter adds up the documents of the parsed archives |
| IndexProgress.ScanCanFinish | 02_SMT_LogTrace/src/indexing/incremental_indexer.cpp:101-241 | when nobody holds the lock and nothing waits for recovery, a scan can run to its end over what it may select: one new batch, PARSED with exactly the archives that parsed, or FAILED when none did |
| IndexProgress.NextBatchCanBePublished | 02_SMT_LogTrace/src/indexing/segment_manager.cpp:73-122 | in every state between two batches the next PARSED batch can be built and published, whatever lies in its directories: READY with the digest of a complete directory, its parsed archives INDEXED, nothing else changed |
| IndexProgress.SnapshotCanBeRefreshed | 02_SMT_LogTrace/src/indexing/segment_manager.cpp:138-150 | in every state between two batches the snapshot can be refreshed, and then holds exactly the READY batches |

## Left out

- UploadGuarantees.LiveWithinLimits: uses one ideal clock, because a key dies exactly at the time its sorted-set score records here; in the code scores come from the client's clock and expiry from the server's.
- UploadProtocol.CleanerStepInv: the age test on the temporary file's modification time is left out, so the cleanup may act at any moment; this only adds runs.
- UploadServer.ApplyInv: a failing call and a process death are the same step, and a call that took effect before its answer was lost is that effect followed by this step; a create request whose answer was lost unlinks its file in a step of its own.
- CollectorWorld.DoneMeansArchived: input scanning, stability counting and the format of state files are reduced to steps that save, load and remove.
- ArchiveCursor.FollowingTextsListsEverythingOnce: for a table that does not change between pages.
- SegmentBuild.Build: the document times arrive as parsed milliseconds and at most 2^32 files are in a batch, because calendar conversion is left out and file ordinals are 32-bit.
- SegmentLoad.LoadAtPath: the manifest is a record without its creation time, its digest is the record itself and the size limit of the JSON text is left out, because JSON is taken as a faithful encoding.
- ParsedBatches.Load: JSON syntax and the checks on one row's fields are the two parse parameters and the predicates `FileRowOk` and `DocumentRowOk`; the manifest is a record whose digest is the record itself.
- SegmentLoad.Publish: vectors have fewer than 2^64 elements.
- SearchPages.Search: scores are exact reals and inverse document frequency is any function of two counts, because rounding is not modelled; scores compare exactly, without the tolerance of 1e-12, which is not transitive.
- SearchTop.Consider: the bounded priority queue is a set whose worst element can be taken out, which is all that is used of the heap; hits compare exactly, without the tolerance.
- QueryCache.CacheIsTransparent: on a fixed snapshot; a page cached before a rebuild and a restart with the same largest batch id is outside it.
- LineSplitter.ParseArchive: the two line formats are parameters with their own memory, because what is proved of lines and documents holds for any of them.
- IndexSafety.StepInv: exactly one builder, as the worker thread is; two builders at once are outside the contract of the code. The parsed artifact of a batch is the set of its contributing archives, not files on disk.
- SegmentRecovery.SegmentManager.RecoverBuildingBatches: without interference and with a database that answers; the interleaved form, in which every statement may fail, is the machine of `IndexLifecycle`.
- Transport, routing, workflow scheduling, SQL text, authentication, configuration, logging, health checks and data generators.
- Key-value parsing of runtime log lines and the header rules of test reports, which are case lists over single lines.
- Log details and their two caches beyond the cache itself: they read one document through `findDocument`.
- Time-to-live values of the query cache, and calendar conversion.
