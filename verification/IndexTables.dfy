// The tables of the index state database: each SQL statement as one atomic step.

module IndexTables {
  import opened Common

  datatype BatchState = PARSING | PARSED | BUILDING | READY | FAILED

  datatype ArchiveState = PENDING | ARCHIVE_PARSED | INDEXED | ARCHIVE_FAILED

  /** A row of index_batch. `contributors` are the archives whose documents the parsed artifact of the
      batch holds; `segment` is the recorded digest of its Segment manifest. */
  datatype Batch = Batch(state: BatchState, contributors: set<nat>, segment: Option<nat>)

  /** A row of indexed_archive. */
  datatype ArchiveRow = ArchiveRow(state: ArchiveState, batch: nat)

  datatype Tables = Tables(batches: map<nat, Batch>, archives: map<nat, ArchiveRow>)

  predicate Is(t: Tables, b: nat, state: BatchState) {
    b in t.batches && t.batches[b].state == state
  }

  /** A batch whose documents are, or will be, searched. */
  predicate Live(t: Tables, b: nat) {
    Is(t, b, PARSED) || Is(t, b, BUILDING) || Is(t, b, READY)
  }

  function WithState(t: Tables, b: nat, state: BatchState): Tables
    requires b in t.batches
  {
    t.(batches := t.batches[b := t.batches[b].(state := state)])
  }

  // ---------------------------------------------------------------- statements of a scan

  /** createBatch */
  function Created(t: Tables, b: nat): Tables {
    t.(batches := t.batches[b := Batch(PARSING, {}, None)])
  }

  /** attachArchive: INSERT ... ON DUPLICATE KEY UPDATE */
  function Attached(t: Tables, b: nat, a: nat): Tables {
    t.(archives := t.archives[a := ArchiveRow(PENDING, b)])
  }

  /** markArchiveParsed and markArchiveFailed */
  function Marked(t: Tables, a: nat, state: ArchiveState): Tables {
    if a in t.archives then t.(archives := t.archives[a := t.archives[a].(state := state)]) else t
  }

  /** markBatchParsed: unconditional */
  function BatchParsed(t: Tables, b: nat, contributors: set<nat>): Tables {
    if b in t.batches then t.(batches := t.batches[b := Batch(PARSED, contributors, None)]) else t
  }

  /** markBatchFailed: unconditional */
  function BatchFailed(t: Tables, b: nat): Tables {
    if b in t.batches then WithState(t, b, FAILED) else t
  }

  /** The archives of a batch all get one state: one UPDATE ... WHERE batch_id. */
  function ArchivesOf(t: Tables, b: nat, state: ArchiveState): Tables {
    t.(archives := map a | a in t.archives ::
         if t.archives[a].batch == b then ArchiveRow(state, b) else t.archives[a])
  }

  // ---------------------------------------------------------------- statements of the builder

  /** markBatchBuilding, guarded by state='PARSED' */
  function Building(t: Tables, b: nat): (bool, Tables) {
    if Is(t, b, PARSED) then (true, t.(batches := t.batches[b := t.batches[b].(state := BUILDING, segment := None)]))
    else (false, t)
  }

  /** resetBuildingBatch, guarded by state='BUILDING' */
  function ResetBuilding(t: Tables, b: nat): (bool, Tables) {
    if Is(t, b, BUILDING) then (true, t.(batches := t.batches[b := t.batches[b].(state := PARSED, segment := None)]))
    else (false, t)
  }

  /** publishBatchReady: the JOIN needs an attached archive; its PARSED archives become INDEXED. */
  function Published(t: Tables, b: nat, hash: nat): (bool, Tables) {
    if Is(t, b, BUILDING) && exists a <- t.archives :: t.archives[a].batch == b then
      (true,
       Tables(t.batches[b := t.batches[b].(state := READY, segment := Some(hash))],
              map a | a in t.archives ::
                if t.archives[a].batch == b && t.archives[a].state == ARCHIVE_PARSED then ArchiveRow(INDEXED, b)
                else t.archives[a]))
    else (false, t)
  }

  /** markSegmentBuildFailed, guarded by state IN ('PARSED','BUILDING') */
  function BuildFailed(t: Tables, b: nat): (bool, Tables) {
    if Is(t, b, PARSED) || Is(t, b, BUILDING) then
      (true, t.(batches := t.batches[b := t.batches[b].(state := FAILED, segment := None)]))
    else (false, t)
  }

  // ---------------------------------------------------------------- statements of a rebuild

  /** The first UPDATE of requestRebuild: unconditional. */
  function RebuildBatch(t: Tables, b: nat): Tables {
    if b in t.batches then t.(batches := t.batches[b := t.batches[b].(state := FAILED, segment := None)]) else t
  }

  // ---------------------------------------------------------------- queries

  /** The batches in a state, in order of id. */
  ghost predicate ListsBatches(s: seq<nat>, t: Tables, state: BatchState) {
    && (forall i, j :: 0 <= i < j < |s| ==> s[i] < s[j])
    && forall b: nat :: b in s <==> Is(t, b, state)
  }
}
