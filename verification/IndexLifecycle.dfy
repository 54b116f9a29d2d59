// Batches and Segments over time: one builder without the index lock, one lock holder that scans or
// rebuilds, and a crash of either between any two steps.

module IndexLifecycle {
  import opened Common
  import opened IndexTables

  // ---------------------------------------------------------------- state

  datatype SegmentFile = ManifestFile | TermsFile | PostingsFile | DocumentsFile | FilesFile

  const ALL_FILES: set<SegmentFile> := {ManifestFile, TermsFile, PostingsFile, DocumentsFile, FilesFile}

  /** A Segment directory; `hash` is the digest of the manifest written for it. */
  datatype SegmentDir = SegmentDir(hash: nat, files: set<SegmentFile>)

  type Directories = map<nat, SegmentDir>

  predicate Complete(dirs: Directories, b: nat, hash: nat) {
    b in dirs && dirs[b] == SegmentDir(hash, ALL_FILES)
  }

  /** The program counter of SegmentManager in the worker thread. */
  datatype Builder =
    | Idle
    | Recovering(todo: seq<nat>)
    | Recovered(hash: nat, todo: seq<nat>)
    | Corrupted(todo: seq<nat>)
    | Chosen(batch: nat)
    | Writing(batch: nat)
    | Checked(batch: nat, hash: nat)
    | Renamed(batch: nat, hash: nat)
    | Synced(batch: nat, hash: nat)
    | Aborting(batch: nat)
    | Refreshing(pending: seq<(nat, nat)>, loaded: set<(nat, nat)>)

  /** The program counter of whoever holds the index lock. */
  datatype Holder =
    | NoLock
    | ScanRecovering(todo: seq<nat>)
    | ScanFailing(todo: seq<nat>)
    | Selected(ids: seq<nat>, isNew: bool)
    | Attaching(batch: nat, ids: seq<nat>, done: nat, isNew: bool)
    | Marking(batch: nat, ids: seq<nat>, done: nat, parsed: set<nat>)
    | Failing(batch: nat, ids: seq<nat>, done: nat)
    | RebuildChosen(batch: nat)
    | RebuildFailed(batch: nat)
    | Removing(batch: nat)

  datatype World = World(
    tables: Tables,
    nextBatch: nat,
    source: seq<nat>,
    building: Directories,
    published: Directories,
    snapshot: set<(nat, nat)>,
    builder: Builder,
    holder: Holder)

  datatype Event =
    // the source database
    | AppendSource(id: nat)
    // crashes and exceptions
    | BuilderStops
    | ServerCrash
    | HolderStops
    // recoverBuildingBatches
    | CleanBuilding(dir: nat, file: SegmentFile)
    | StartRecovery(todo: seq<nat>)
    | RecoverReset
    | RecoverLoad
    | RecoverPublish
    | RecoverReject
    | RecoverRemove(file: SegmentFile)
    | RecoverFail
    // buildNext
    | Choose(batch: nat)
    | MarkBuilding
    | WriteFile(hash: nat, file: SegmentFile)
    | ClearFile(file: SegmentFile)
    | Check
    | Rename
    | Sync
    | Abort
    | AbortRemove(file: SegmentFile)
    | AbortMark
    | Publish
    // refreshSnapshot
    | ListReady(pending: seq<(nat, nat)>)
    | LoadReady
    | Swap
    // scanOnce
    | LockScan(todo: seq<nat>)
    | FailArchives
    | FailBatch
    | Select(ids: seq<nat>)
    | CreateBatch
    | AttachOne
    | MarkOne(success: bool)
    | FinishScan
    | ArtifactFails
    | FailOne(stored: bool)
    | FailScan
    // requestRebuild
    | LockRebuild(archive: nat)
    | RebuildBatchRow
    | RebuildArchiveRows
    | RebuildRemove(file: SegmentFile)
    | Unlock

  // ---------------------------------------------------------------- steps on directories

  /** removeSegmentDirectory, one unlink or the final rmdir at a time. */
  function RemoveOne(dirs: Directories, b: nat, file: SegmentFile): Directories {
    if b !in dirs then dirs
    else if dirs[b].files - {file} == {} then dirs - {b}
    else dirs[b := dirs[b].(files := dirs[b].files - {file})]
  }

  function WriteOne(dirs: Directories, b: nat, hash: nat, file: SegmentFile): Directories {
    if b in dirs then dirs[b := SegmentDir(hash, dirs[b].files + {file})] else dirs[b := SegmentDir(hash, {file})]
  }

  // ---------------------------------------------------------------- what a scan selects

  /** The rows listPendingArchiveIds returns, cut after the last archive of the batch. */
  ghost predicate PendingPrefix(ids: seq<nat>, t: Tables) {
    && ids != [] && (forall i, j :: 0 <= i < j < |ids| ==> ids[i] < ids[j])
    && (forall a <- ids :: a in t.archives && t.archives[a].state == PENDING)
    && forall a <- t.archives :: t.archives[a].state == PENDING && a <= ids[|ids| - 1] ==> a in ids
  }

  /** The archives listAfter(maxObservedArchiveId) returns, cut after the last of the batch: the next
      eligible ones in order. */
  ghost predicate FreshPrefix(ids: seq<nat>, t: Tables, source: seq<nat>) {
    && ids != [] && (forall i, j :: 0 <= i < j < |ids| ==> ids[i] < ids[j])
    && (forall i, a :: 0 <= i < |ids| && a in t.archives ==> a < ids[i])
    && (forall a <- ids :: a in source)
    && forall e <- source :: !NotObserved(t, e) || e > ids[|ids| - 1] || e in ids
  }

  /** An id above everything observed. */
  predicate NotObserved(t: Tables, id: nat) {
    forall a <- t.archives :: a < id
  }

  ghost predicate ListsReady(pending: seq<(nat, nat)>, t: Tables) {
    && (forall i, j :: 0 <= i < j < |pending| ==> pending[i].0 < pending[j].0)
    && (forall p <- pending :: Is(t, p.0, READY) && t.batches[p.0].segment == Some(p.1))
    && forall b: nat :: Is(t, b, READY) ==> exists p <- pending :: p.0 == b
  }

  // ---------------------------------------------------------------- builder steps

  ghost predicate CanBuilder(w: World, e: Event) {
    match e
    case CleanBuilding(_, _) => w.builder.Idle?
    case StartRecovery(todo) => w.builder.Idle? && ListsBatches(todo, w.tables, BUILDING)
    case RecoverReset => w.builder.Recovering? && w.builder.todo != [] && w.builder.todo[0] !in w.published
    case RecoverLoad =>
      w.builder.Recovering? && w.builder.todo != [] && w.builder.todo[0] in w.published
      && w.published[w.builder.todo[0]].files == ALL_FILES
    case RecoverPublish => w.builder.Recovered? && w.builder.todo != []
    // a damaged directory, or one that cannot be read
    case RecoverReject => w.builder.Recovering? && w.builder.todo != [] && w.builder.todo[0] in w.published
    case RecoverRemove(_) => w.builder.Corrupted? && w.builder.todo != []
    case RecoverFail => w.builder.Corrupted? && w.builder.todo != [] && w.builder.todo[0] !in w.published
    case Choose(b) => w.builder == Recovering([]) && Is(w.tables, b, PARSED)
                      && forall c: nat :: Is(w.tables, c, PARSED) ==> b <= c
    case MarkBuilding => w.builder.Chosen?
    case WriteFile(hash, _) =>
      w.builder.Writing? && (w.builder.batch in w.building ==> w.building[w.builder.batch].hash == hash)
    case ClearFile(_) => w.builder.Writing?
    case Check => w.builder.Writing? && w.builder.batch in w.building && w.building[w.builder.batch].files == ALL_FILES
    case Rename => w.builder.Checked? && w.builder.batch in w.building && w.builder.batch !in w.published
    case Sync => w.builder.Renamed?
    // also when the directory sync after the rename fails
    case Abort => w.builder.Writing? || w.builder.Checked? || w.builder.Renamed?
    case AbortRemove(_) => w.builder.Aborting?
    case AbortMark => w.builder.Aborting?
    case Publish => w.builder.Synced?
    case ListReady(pending) => w.builder == Recovering([]) && ListsReady(pending, w.tables)
    case LoadReady =>
      w.builder.Refreshing? && w.builder.pending != []
      && Complete(w.published, w.builder.pending[0].0, w.builder.pending[0].1)
    case Swap => w.builder.Refreshing? && w.builder.pending == []
    case _ => false
  }

  /** A publish that changed no row is an exception. */
  function Announce(w: World, b: nat, hash: nat, next: Builder): World {
    var (changed, t) := Published(w.tables, b, hash);
    if changed then w.(tables := t, builder := next)
    else w.(builder := Idle)
  }

  ghost function DoBuilder(w: World, e: Event): World
    requires CanBuilder(w, e)
  {
    match e
    case CleanBuilding(b, file) => w.(building := RemoveOne(w.building, b, file))
    case StartRecovery(todo) => w.(builder := Recovering(todo))
    case RecoverReset =>
      var (changed, t) := ResetBuilding(w.tables, w.builder.todo[0]);
      w.(tables := t, builder := if changed then Recovering(w.builder.todo[1..]) else Idle)
    case RecoverLoad => w.(builder := Recovered(w.published[w.builder.todo[0]].hash, w.builder.todo))
    case RecoverPublish =>
      Announce(w, w.builder.todo[0], w.builder.hash, Recovering(w.builder.todo[1..]))
    case RecoverReject => w.(builder := Corrupted(w.builder.todo))
    case RecoverRemove(file) =>
      w.(building := RemoveOne(w.building, w.builder.todo[0], file),
         published := RemoveOne(w.published, w.builder.todo[0], file))
    case RecoverFail =>
      var (changed, t) := BuildFailed(w.tables, w.builder.todo[0]);
      w.(tables := t, builder := if changed then Recovering(w.builder.todo[1..]) else Idle)
    case Choose(b) => w.(builder := Chosen(b))
    case MarkBuilding =>
      var (changed, t) := Building(w.tables, w.builder.batch);
      w.(tables := t, builder := if changed then Writing(w.builder.batch) else Idle)
    case WriteFile(hash, file) => w.(building := WriteOne(w.building, w.builder.batch, hash, file))
    case ClearFile(file) =>
      w.(building := RemoveOne(w.building, w.builder.batch, file),
         published := RemoveOne(w.published, w.builder.batch, file))
    case Check => w.(builder := Checked(w.builder.batch, w.building[w.builder.batch].hash))
    case Rename =>
      var b := w.builder.batch;
      w.(published := w.published[b := w.building[b]], building := w.building - {b},
         builder := Renamed(b, w.builder.hash))
    case Sync => w.(builder := Synced(w.builder.batch, w.builder.hash))
    case Abort => w.(builder := Aborting(w.builder.batch))
    case AbortRemove(file) =>
      w.(building := RemoveOne(w.building, w.builder.batch, file),
         published := RemoveOne(w.published, w.builder.batch, file))
    case AbortMark => w.(tables := BuildFailed(w.tables, w.builder.batch).1, builder := Idle)
    case Publish => Announce(w, w.builder.batch, w.builder.hash, Recovering([]))
    case ListReady(pending) => w.(builder := Refreshing(pending, {}))
    case LoadReady =>
      w.(builder := Refreshing(w.builder.pending[1..], w.builder.loaded + {w.builder.pending[0]}))
    case Swap => w.(snapshot := w.builder.loaded, builder := Idle)
  }

  // ---------------------------------------------------------------- steps of the lock holder

  ghost predicate CanHolder(w: World, e: Event) {
    match e
    case LockScan(todo) => w.holder.NoLock? && ListsBatches(todo, w.tables, PARSING)
    case FailArchives => w.holder.ScanRecovering? && w.holder.todo != []
    case FailBatch => w.holder.ScanFailing? && w.holder.todo != []
    case Select(ids) =>
      && w.holder == ScanRecovering([])
      && if exists a <- w.tables.archives :: w.tables.archives[a].state == PENDING then PendingPrefix(ids, w.tables)
         else FreshPrefix(ids, w.tables, w.source)
    case CreateBatch => w.holder.Selected?
    case AttachOne => w.holder.Attaching?
    case MarkOne(_) => w.holder.Marking? && w.holder.done < |w.holder.ids|
    case FinishScan => w.holder.Marking? && w.holder.done == |w.holder.ids|
    // the parsed artifact is written before the first archive is marked
    case ArtifactFails => w.holder.Marking? && w.holder.done == 0
    case FailOne(_) => w.holder.Failing? && w.holder.done < |w.holder.ids|
    case FailScan => w.holder.Failing? && w.holder.done == |w.holder.ids|
    case LockRebuild(a) => w.holder.NoLock? && a in w.tables.archives
    case RebuildBatchRow => w.holder.RebuildChosen?
    case RebuildArchiveRows => w.holder.RebuildFailed?
    case RebuildRemove(_) => w.holder.Removing?
    case Unlock => w.holder.Removing? || w.holder == ScanRecovering([])
    case _ => false
  }

  ghost function DoHolder(w: World, e: Event): World
    requires CanHolder(w, e)
  {
    match e
    case LockScan(todo) => w.(holder := ScanRecovering(todo))
    case FailArchives =>
      w.(tables := ArchivesOf(w.tables, w.holder.todo[0], ARCHIVE_FAILED), holder := ScanFailing(w.holder.todo))
    case FailBatch => w.(tables := BatchFailed(w.tables, w.holder.todo[0]),
                         holder := ScanRecovering(w.holder.todo[1..]))
    case Select(ids) => w.(holder := Selected(ids, ids[0] !in w.tables.archives))
    case CreateBatch =>
      w.(tables := Created(w.tables, w.nextBatch), nextBatch := w.nextBatch + 1,
         holder := Attaching(w.nextBatch, w.holder.ids, 0, w.holder.isNew))
    case AttachOne =>
      if w.holder.done < |w.holder.ids| then
        w.(tables := Attached(w.tables, w.holder.batch, w.holder.ids[w.holder.done]),
           holder := Attaching(w.holder.batch, w.holder.ids, w.holder.done + 1, w.holder.isNew))
      else w.(holder := Marking(w.holder.batch, w.holder.ids, 0, {}))
    case MarkOne(success) =>
      var a := w.holder.ids[w.holder.done];
      w.(tables := Marked(w.tables, a, if success then ARCHIVE_PARSED else ARCHIVE_FAILED),
         holder := Marking(w.holder.batch, w.holder.ids, w.holder.done + 1,
                           if success then w.holder.parsed + {a} else w.holder.parsed))
    case FinishScan =>
      w.(tables := if w.holder.parsed == {} then BatchFailed(w.tables, w.holder.batch)
                   else BatchParsed(w.tables, w.holder.batch, w.holder.parsed),
         holder := NoLock)
    case ArtifactFails => w.(holder := Failing(w.holder.batch, w.holder.ids, 0))
    // a mark that cannot be stored is passed over
    case FailOne(stored) =>
      w.(tables := if stored then Marked(w.tables, w.holder.ids[w.holder.done], ARCHIVE_FAILED) else w.tables,
         holder := Failing(w.holder.batch, w.holder.ids, w.holder.done + 1))
    case FailScan => w.(tables := BatchFailed(w.tables, w.holder.batch), holder := NoLock)
    case LockRebuild(a) => w.(holder := RebuildChosen(w.tables.archives[a].batch))
    case RebuildBatchRow => w.(tables := RebuildBatch(w.tables, w.holder.batch),
                               holder := RebuildFailed(w.holder.batch))
    case RebuildArchiveRows => w.(tables := ArchivesOf(w.tables, w.holder.batch, PENDING),
                                  holder := Removing(w.holder.batch))
    case RebuildRemove(file) =>
      w.(building := RemoveOne(w.building, w.holder.batch, file),
         published := RemoveOne(w.published, w.holder.batch, file))
    case Unlock => w.(holder := NoLock)
  }

  // ---------------------------------------------------------------- all steps

  ghost predicate CanOutside(w: World, e: Event) {
    match e
    case AppendSource(id) => forall s <- w.source :: s < id
    case BuilderStops | ServerCrash | HolderStops => true
    case _ => false
  }

  ghost function DoOutside(w: World, e: Event): World
    requires CanOutside(w, e)
  {
    match e
    case AppendSource(id) => w.(source := w.source + [id])
    case BuilderStops => w.(builder := Idle)
    case ServerCrash => w.(builder := Idle, snapshot := {})
    case HolderStops => w.(holder := NoLock)
  }

  ghost predicate Can(w: World, e: Event) {
    CanBuilder(w, e) || CanHolder(w, e) || CanOutside(w, e)
  }

  ghost function Do(w: World, e: Event): World
    requires Can(w, e)
  {
    if CanBuilder(w, e) then DoBuilder(w, e) else if CanHolder(w, e) then DoHolder(w, e) else DoOutside(w, e)
  }

  function Empty(): World {
    World(Tables(map[], map[]), 1, [], map[], map[], {}, Idle, NoLock)
  }

  // ---------------------------------------------------------------- invariants

  /** Rows point at rows; a READY batch has no archive left PARSED, and only a READY or FAILED batch has
      INDEXED ones; a live batch holds documents, exactly those of its PARSED and INDEXED archives. */
  ghost predicate TablesOk(t: Tables, nextBatch: nat) {
    && nextBatch > 0 && (forall b <- t.batches :: 0 < b < nextBatch)
    && (forall a <- t.archives :: t.archives[a].batch in t.batches)
    && (forall a <- t.archives :: Is(t, t.archives[a].batch, READY) ==> t.archives[a].state != ARCHIVE_PARSED)
    && (forall a <- t.archives :: t.archives[a].state == INDEXED ==>
          Is(t, t.archives[a].batch, READY) || Is(t, t.archives[a].batch, FAILED))
    && (forall b <- t.batches :: Live(t, b) ==>
          Contribute(t, b, t.batches[b].contributors) && t.batches[b].contributors != {})
  }

  /** An archive of the batch whose documents were parsed. */
  predicate Holds(t: Tables, b: nat, a: nat) {
    && a in t.archives && t.archives[a].batch == b
    && (t.archives[a].state == ARCHIVE_PARSED || t.archives[a].state == INDEXED)
  }

  ghost predicate Contribute(t: Tables, b: nat, contributors: set<nat>) {
    forall a: nat :: a in contributors <==> Holds(t, b, a)
  }

  /** Every READY batch has a complete Segment directory with the recorded digest. */
  ghost predicate ReadyOk(w: World) {
    forall b: nat :: Is(w.tables, b, READY) ==>
      var s := w.tables.batches[b].segment;
      s.Some? && Complete(w.published, b, s.value)
  }

  /** A batch the builder has in hand: only the builder can make it READY. */
  predicate InHand(t: Tables, b: nat) {
    Is(t, b, PARSED) || Is(t, b, BUILDING) || Is(t, b, FAILED)
  }

  ghost predicate OnlyBuilding(t: Tables, todo: seq<nat>) {
    && Ascending(todo)
    && (forall b: nat :: Is(t, b, BUILDING) ==> b in todo) && (forall b <- todo :: InHand(t, b))
  }

  ghost predicate BuilderOk(w: World) {
    match w.builder
    case Idle => true
    case Recovering(todo) => OnlyBuilding(w.tables, todo)
    case Recovered(hash, todo) =>
      && OnlyBuilding(w.tables, todo) && todo != []
      && (Is(w.tables, todo[0], BUILDING) ==> Complete(w.published, todo[0], hash))
    case Corrupted(todo) => OnlyBuilding(w.tables, todo) && todo != []
    case Chosen(b) => OnlyBuilding(w.tables, []) && InHand(w.tables, b)
    case Writing(b) => OnlyBuilding(w.tables, [b])
    case Aborting(b) => OnlyBuilding(w.tables, [b])
    case Checked(b, hash) => OnlyBuilding(w.tables, [b])
        && (Is(w.tables, b, BUILDING) ==> Complete(w.building, b, hash))
    case Renamed(b, hash) => OnlyBuilding(w.tables, [b])
        && (Is(w.tables, b, BUILDING) ==> Complete(w.published, b, hash))
    case Synced(b, hash) => OnlyBuilding(w.tables, [b])
        && (Is(w.tables, b, BUILDING) ==> Complete(w.published, b, hash))
    case Refreshing(_, _) => OnlyBuilding(w.tables, [])
  }

  /** What is left to attach: archives waiting for a retry ... */
  ghost predicate PendingRest(rest: seq<nat>, t: Tables) {
    forall a <- rest :: a in t.archives && t.archives[a].state == PENDING
  }

  /** ... or the next eligible archives after everything observed. */
  ghost predicate FreshRest(rest: seq<nat>, t: Tables, source: seq<nat>) {
    && Ascending(rest) && (forall a <- rest :: a in source && NotObserved(t, a))
    && forall e <- source, i :: 0 <= i < |rest| && NotObserved(t, e) && e <= rest[i] ==> e in rest
  }

  ghost predicate Rest(rest: seq<nat>, w: World, isNew: bool) {
    if isNew then FreshRest(rest, w.tables, w.source) else PendingRest(rest, w.tables)
  }

  ghost predicate BelongTo(ids: seq<nat>, t: Tables, b: nat) {
    forall a <- ids :: a in t.archives && t.archives[a].batch == b
  }

  ghost predicate HolderOk(w: World) {
    match w.holder
    case NoLock => true
    case ScanRecovering(todo) => Ascending(todo) && forall b <- todo :: Is(w.tables, b, PARSING)
    case ScanFailing(todo) => Ascending(todo) && forall b <- todo :: Is(w.tables, b, PARSING)
    case Selected(ids, isNew) => Ascending(ids) && Rest(ids, w, isNew)
    case Attaching(b, ids, done, isNew) =>
      && Is(w.tables, b, PARSING) && done <= |ids| && Ascending(ids) && Contribute(w.tables, b, {})
      && BelongTo(ids[..done], w.tables, b) && Rest(ids[done..], w, isNew)
    case Marking(b, ids, done, parsed) =>
      && Is(w.tables, b, PARSING) && done <= |ids| && Ascending(ids) && BelongTo(ids, w.tables, b)
      && (forall a <- parsed :: a in ids[..done]) && Contribute(w.tables, b, parsed)
    case Failing(b, ids, done) =>
      Is(w.tables, b, PARSING) && done <= |ids| && BelongTo(ids, w.tables, b)
    case RebuildChosen(b) => b in w.tables.batches
    case RebuildFailed(b) => Is(w.tables, b, FAILED)
    case Removing(b) => Is(w.tables, b, FAILED)
  }

  /** Source ids grow, everything observed is a source id, and nothing below it is skipped. */
  ghost predicate SourceOk(w: World) {
    && Ascending(w.source) && (forall a <- w.tables.archives :: a in w.source)
    && forall e <- w.source, a <- w.tables.archives :: e <= a ==> e in w.tables.archives
  }

  ghost predicate Inv(w: World) {
    TablesOk(w.tables, w.nextBatch) && ReadyOk(w) && BuilderOk(w) && HolderOk(w) && SourceOk(w)
  }
}
