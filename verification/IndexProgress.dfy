// What the worker can always bring to its end when nothing stops it: a scan, a build, a refresh of the snapshot.

module IndexProgress {
  import opened Common
  import opened IndexTables
  import opened IndexLifecycle
  import opened IndexRebuild
  import opened IndexSafety
  import opened Ranking

  // ---------------------------------------------------------------- steps in a row

  ghost predicate Path(w: World, es: seq<Event>, v: World)
    decreases |es|
  {
    if es == [] then v == w else Can(w, es[0]) && Path(Do(w, es[0]), es[1..], v)
  }

  /** Some steps lead from one state to the other. */
  ghost predicate Leads(w: World, v: World) {
    exists es: seq<Event> :: Path(w, es, v)
  }

  lemma {:induction false} PathJoin(w: World, es: seq<Event>, v: World, fs: seq<Event>, x: World)
    requires Path(w, es, v) && Path(v, fs, x)
    ensures Path(w, es + fs, x)
    decreases |es|
  {
    hide Can, Do;
    if es == [] {
      assert es + fs == fs;
    } else {
      PathJoin(Do(w, es[0]), es[1..], v, fs, x);
      assert (es + fs)[1..] == es[1..] + fs;
    }
  }

  lemma LeadsOn(w: World, v: World, x: World)
    requires Leads(w, v) && Leads(v, x)
    ensures Leads(w, x)
  {
    hide Path;
    var es :| Path(w, es, v);
    var fs :| Path(v, fs, x);
    PathJoin(w, es, v, fs, x);
  }

  lemma Stays(w: World)
    ensures Leads(w, w)
  {
    assert Path(w, [], w);
  }

  lemma BuilderLeads(w: World, e: Event)
    requires CanBuilder(w, e)
    ensures Leads(w, DoBuilder(w, e))
  {
    hide CanBuilder, DoBuilder;
    assert Path(DoBuilder(w, e), [], DoBuilder(w, e));
    assert [e][1..] == [];
    assert Path(w, [e], DoBuilder(w, e));
  }

  lemma HolderLeads(w: World, e: Event)
    requires CanHolder(w, e)
    ensures Leads(w, DoHolder(w, e))
  {
    OneActor(w, e);
    hide CanBuilder, CanHolder, DoHolder, DoBuilder;
    assert Path(DoHolder(w, e), [], DoHolder(w, e));
    assert [e][1..] == [];
    assert Path(w, [e], DoHolder(w, e));
  }

  // ---------------------------------------------------------------- the directory of a build

  const EVERY_FILE: seq<SegmentFile> := [FilesFile, DocumentsFile, PostingsFile, TermsFile, ManifestFile]

  /** All other directories are as they were. */
  predicate Elsewhere(dirs: Directories, left: Directories, b: nat) {
    dirs - {b} == left - {b}
  }

  function RemoveFiles(dirs: Directories, b: nat, files: seq<SegmentFile>): Directories
    decreases |files|
  {
    if files == [] then dirs else RemoveFiles(RemoveOne(dirs, b, files[0]), b, files[1..])
  }

  lemma {:induction false} RemoveFilesIs(dirs: Directories, b: nat, files: seq<SegmentFile>)
    ensures Elsewhere(dirs, RemoveFiles(dirs, b, files), b)
    ensures b in RemoveFiles(dirs, b, files) ==>
              b in dirs && RemoveFiles(dirs, b, files)[b].files == dirs[b].files - set f <- files
    ensures b in RemoveFiles(dirs, b, files) && files != [] ==> RemoveFiles(dirs, b, files)[b].files != {}
    decreases |files|
  {
    if files != [] {
      var next := RemoveOne(dirs, b, files[0]);
      RemoveFilesIs(next, b, files[1..]);
      assert files == [files[0]] + files[1..];
    }
  }

  /** Removing every file removes the directory. */
  lemma RemovedWhole(dirs: Directories, b: nat)
    ensures b !in RemoveFiles(dirs, b, EVERY_FILE) && Elsewhere(dirs, RemoveFiles(dirs, b, EVERY_FILE), b)
  {
    hide RemoveFiles;
    RemoveFilesIs(dirs, b, EVERY_FILE);
    if b in RemoveFiles(dirs, b, EVERY_FILE) {
      var f :| f in RemoveFiles(dirs, b, EVERY_FILE)[b].files;
      Every(f);
    }
  }

  lemma Every(f: SegmentFile)
    ensures f in EVERY_FILE && f in ALL_FILES
  {
    assert EVERY_FILE[0] == FilesFile && EVERY_FILE[1] == DocumentsFile && EVERY_FILE[2] == PostingsFile
           && EVERY_FILE[3] == TermsFile && EVERY_FILE[4] == ManifestFile;
  }

  lemma {:induction false} Clears(w: World, b: nat, files: seq<SegmentFile>)
    requires w.builder == Writing(b)
    ensures Leads(w, w.(building := RemoveFiles(w.building, b, files), published := RemoveFiles(w.published, b, files)))
    decreases |files|
  {
    hide Leads, RemoveOne;
    if files == [] {
      Stays(w);
    } else {
      ClearStep(w, b, files[0]);
      var v := w.(building := RemoveOne(w.building, b, files[0]), published := RemoveOne(w.published, b, files[0]));
      Clears(v, b, files[1..]);
      LeadsOn(w, v, v.(building := RemoveFiles(v.building, b, files[1..]),
                       published := RemoveFiles(v.published, b, files[1..])));
    }
  }

  lemma ClearStep(w: World, b: nat, f: SegmentFile)
    requires w.builder == Writing(b)
    ensures Leads(w, w.(building := RemoveOne(w.building, b, f), published := RemoveOne(w.published, b, f)))
  {
    hide Leads, RemoveOne, Complete, ListsBatches, ListsReady;
    BuilderLeads(w, ClearFile(f));
  }

  function WriteFiles(dirs: Directories, b: nat, hash: nat, files: seq<SegmentFile>): Directories
    decreases |files|
  {
    if files == [] then dirs else WriteFiles(WriteOne(dirs, b, hash, files[0]), b, hash, files[1..])
  }

  lemma {:induction false} WriteFilesIs(dirs: Directories, b: nat, hash: nat, files: seq<SegmentFile>)
    requires b in dirs ==> dirs[b].hash == hash
    ensures Elsewhere(dirs, WriteFiles(dirs, b, hash, files), b)
    ensures files != [] || b in dirs ==>
              && b in WriteFiles(dirs, b, hash, files)
              && WriteFiles(dirs, b, hash, files)[b]
                 == SegmentDir(hash, (if b in dirs then dirs[b].files else {}) + set f <- files)
    decreases |files|
  {
    if files != [] {
      WriteFilesIs(WriteOne(dirs, b, hash, files[0]), b, hash, files[1..]);
      assert files == [files[0]] + files[1..];
    }
  }

  lemma WrittenWhole(dirs: Directories, b: nat, hash: nat)
    requires b !in dirs
    ensures Complete(WriteFiles(dirs, b, hash, EVERY_FILE), b, hash)
    ensures Elsewhere(dirs, WriteFiles(dirs, b, hash, EVERY_FILE), b)
  {
    hide WriteFiles;
    WriteFilesIs(dirs, b, hash, EVERY_FILE);
    forall f
      ensures f in (set x <- EVERY_FILE) && f in ALL_FILES
    {
      Every(f);
    }
    assert (set x <- EVERY_FILE) == ALL_FILES;
  }

  lemma {:induction false} Writes(w: World, b: nat, hash: nat, files: seq<SegmentFile>)
    requires w.builder == Writing(b) && (b in w.building ==> w.building[b].hash == hash)
    ensures Leads(w, w.(building := WriteFiles(w.building, b, hash, files)))
    decreases |files|
  {
    hide Leads;
    if files == [] {
      Stays(w);
    } else {
      WriteOneStep(w, b, hash, files[0]);
      var v := w.(building := WriteOne(w.building, b, hash, files[0]));
      Writes(v, b, hash, files[1..]);
      LeadsOn(w, v, v.(building := WriteFiles(v.building, b, hash, files[1..])));
    }
  }

  lemma WriteOneStep(w: World, b: nat, hash: nat, f: SegmentFile)
    requires w.builder == Writing(b) && (b in w.building ==> w.building[b].hash == hash)
    ensures Leads(w, w.(building := WriteOne(w.building, b, hash, f)))
  {
    hide Leads, WriteOne, Complete, ListsBatches, ListsReady;
    BuilderLeads(w, WriteFile(hash, f));
  }

  // ---------------------------------------------------------------- a build

  /** The batch is READY under the digest, and its parsed archives are INDEXED; nothing else has changed. */
  function Indexed(t: Tables, b: nat, hash: nat): Tables
    requires b in t.batches
  {
    Tables(t.batches[b := Batch(READY, t.batches[b].contributors, Some(hash))],
           map a | a in t.archives ::
             if t.archives[a] == ArchiveRow(ARCHIVE_PARSED, b) then ArchiveRow(INDEXED, b) else t.archives[a])
  }

  lemma Marks(w: World, b: nat)
    requires w.builder == Recovering([]) && Is(w.tables, b, PARSED)
    requires forall c: nat :: Is(w.tables, c, PARSED) ==> b <= c
    ensures Leads(w, w.(tables := Building(w.tables, b).1, builder := Writing(b)))
  {
    hide Leads, Complete, ListsBatches, ListsReady, Building;
    BuilderLeads(w, Choose(b));
    var v := w.(builder := Chosen(b));
    BuilderLeads(v, MarkBuilding);
    assert Building(w.tables, b).0 by { MarkedBuilding(w.tables, b); }
    LeadsOn(w, v, w.(tables := Building(w.tables, b).1, builder := Writing(b)));
  }

  lemma MarkedBuilding(t: Tables, b: nat)
    requires Is(t, b, PARSED)
    ensures var (changed, u) := Building(t, b);
            && changed && u.archives == t.archives && b in t.batches
            && u.batches == t.batches[b := Batch(BUILDING, t.batches[b].contributors, None)]
  {
  }

  lemma Moves(w: World, b: nat, hash: nat)
    requires w.builder == Writing(b) && Complete(w.building, b, hash) && b !in w.published
    ensures Leads(w, w.(published := w.published[b := SegmentDir(hash, ALL_FILES)], building := w.building - {b},
                        builder := Synced(b, hash)))
  {
    hide Leads, ListsBatches, ListsReady;
    BuilderLeads(w, Check);
    var checked := w.(builder := Checked(b, hash));
    BuilderLeads(checked, Rename);
    var renamed := w.(published := w.published[b := SegmentDir(hash, ALL_FILES)], building := w.building - {b},
                      builder := Renamed(b, hash));
    BuilderLeads(renamed, Sync);
    LeadsOn(w, checked, renamed);
    LeadsOn(w, renamed, renamed.(builder := Synced(b, hash)));
  }

  lemma Publishes(w: World, b: nat, hash: nat, t: Tables)
    requires w.builder == Synced(b, hash) && Is(t, b, PARSED) && w.tables == Building(t, b).1
    requires exists a <- t.archives :: t.archives[a].batch == b
    ensures b in t.batches && Leads(w, w.(tables := Indexed(t, b, hash), builder := Recovering([])))
  {
    hide Leads, ListsBatches, ListsReady, Complete;
    BuilderLeads(w, Publish);
    MarkedBuilding(t, b);
    PublishedIs(t, b, hash);
  }

  lemma PublishedIs(t: Tables, b: nat, hash: nat)
    requires Is(t, b, PARSED) && exists a <- t.archives :: t.archives[a].batch == b
    ensures Published(Building(t, b).1, b, hash) == (true, Indexed(t, b, hash))
  {
    var u := Building(t, b).1;
    assert exists a <- u.archives :: u.archives[a].batch == b;
    assert Published(u, b, hash).1.archives == Indexed(t, b, hash).archives;
    assert Published(u, b, hash).1.batches == Indexed(t, b, hash).batches;
  }

  /** In every state between two batches, the next PARSED batch can be built and published, whatever lies in its
      directories: it becomes READY with the digest of a complete directory and its parsed archives INDEXED. */
  lemma NextBatchCanBePublished(w: World, b: nat, hash: nat) returns (v: World)
    requires Inv(w) && w.builder == Recovering([]) && Is(w.tables, b, PARSED)
    requires forall c: nat :: Is(w.tables, c, PARSED) ==> b <= c
    ensures Leads(w, v) && v.builder == Recovering([])
    ensures v == w.(tables := v.tables, building := v.building, published := v.published, builder := v.builder)
    ensures Complete(v.published, b, hash) && b !in v.building
    ensures Elsewhere(w.published, v.published, b) && Elsewhere(w.building, v.building, b)
    ensures v.tables.batches == w.tables.batches[b := Batch(READY, w.tables.batches[b].contributors, Some(hash))]
    ensures v.tables.archives.Keys == w.tables.archives.Keys
    ensures forall a <- w.tables.archives ::
              v.tables.archives[a]
              == if w.tables.archives[a] == ArchiveRow(ARCHIVE_PARSED, b) then ArchiveRow(INDEXED, b)
                 else w.tables.archives[a]
  {
    hide Leads, RemoveFiles, WriteFiles, Building, ReadyOk, BuilderOk, HolderOk, SourceOk;
    Marks(w, b);
    var marked := w.(tables := Building(w.tables, b).1, builder := Writing(b));
    Clears(marked, b, EVERY_FILE);
    var cleared := marked.(building := RemoveFiles(w.building, b, EVERY_FILE),
                           published := RemoveFiles(w.published, b, EVERY_FILE));
    LeadsOn(w, marked, cleared);
    RemovedWhole(w.building, b);
    RemovedWhole(w.published, b);
    Writes(cleared, b, hash, EVERY_FILE);
    var written := cleared.(building := WriteFiles(cleared.building, b, hash, EVERY_FILE));
    LeadsOn(w, cleared, written);
    WrittenWhole(cleared.building, b, hash);
    Moves(written, b, hash);
    var moved := written.(published := written.published[b := SegmentDir(hash, ALL_FILES)],
                          building := written.building - {b}, builder := Synced(b, hash));
    LeadsOn(w, written, moved);
    LiveAttached(w.tables, w.nextBatch, b);
    Publishes(moved, b, hash, w.tables);
    v := moved.(tables := Indexed(w.tables, b, hash), builder := Recovering([]));
    LeadsOn(w, moved, v);
  }

  // ---------------------------------------------------------------- a refresh

  predicate FirstLess(a: (nat, nat), b: (nat, nat)) {
    a.0 < b.0
  }

  /** The READY batches with their digests. */
  ghost function ReadySet(t: Tables): set<(nat, nat)> {
    set b | b in t.batches && t.batches[b].state == READY && t.batches[b].segment.Some? ::
      (b, t.batches[b].segment.value)
  }

  lemma ReadyListed(w: World) returns (pending: seq<(nat, nat)>)
    requires ReadyOk(w)
    ensures ListsReady(pending, w.tables) && (forall p :: p in pending <==> p in ReadySet(w.tables))
  {
    var ready := ReadySet(w.tables);
    pending := CanList(ready, FirstLess);
    assert forall p <- pending :: p in ready;
    forall b: nat | Is(w.tables, b, READY)
      ensures exists p <- pending :: p.0 == b
    {
      assert (b, w.tables.batches[b].segment.value) in ready;
    }
  }

  lemma {:induction false} Loadings(w: World, pending: seq<(nat, nat)>, loaded: set<(nat, nat)>)
    requires w.builder == Refreshing(pending, loaded)
    requires forall p <- pending :: Complete(w.published, p.0, p.1)
    ensures Leads(w, w.(builder := Refreshing([], loaded + set p <- pending)))
    decreases |pending|
  {
    hide Leads, Complete;
    if pending == [] {
      Stays(w);
      assert loaded + (set p <- pending) == loaded;
    } else {
      LoadStep(w);
      var v := w.(builder := Refreshing(pending[1..], loaded + {pending[0]}));
      Loadings(v, pending[1..], loaded + {pending[0]});
      assert pending == [pending[0]] + pending[1..];
      assert loaded + {pending[0]} + (set p <- pending[1..]) == loaded + set p <- pending;
      LeadsOn(w, v, w.(builder := Refreshing([], loaded + set p <- pending)));
    }
  }

  lemma LoadStep(w: World)
    requires w.builder.Refreshing? && w.builder.pending != []
    requires Complete(w.published, w.builder.pending[0].0, w.builder.pending[0].1)
    ensures Leads(w, w.(builder := Refreshing(w.builder.pending[1..], w.builder.loaded + {w.builder.pending[0]})))
  {
    hide Leads, Complete, ListsBatches, ListsReady;
    BuilderLeads(w, LoadReady);
  }

  /** In every state between two batches the snapshot can be refreshed, and then it holds exactly the READY batches. */
  lemma SnapshotCanBeRefreshed(w: World) returns (v: World)
    requires Inv(w) && w.builder == Recovering([])
    ensures Leads(w, v) && v == w.(snapshot := v.snapshot, builder := Idle)
    ensures forall b: nat, hash: nat :: (b, hash) in v.snapshot <==>
              Is(w.tables, b, READY) && w.tables.batches[b].segment == Some(hash)
  {
    hide Leads, TablesOk, BuilderOk, HolderOk, SourceOk;
    var pending := ReadyListed(w);
    ListStep(w, pending);
    var listed := w.(builder := Refreshing(pending, {}));
    assert forall p <- pending :: Complete(w.published, p.0, p.1);
    Loadings(listed, pending, {});
    var loaded := w.(builder := Refreshing([], {} + set p <- pending));
    LeadsOn(w, listed, loaded);
    SwapStep(loaded);
    v := w.(snapshot := loaded.builder.loaded, builder := Idle);
    LeadsOn(w, loaded, v);
  }

  lemma ListStep(w: World, pending: seq<(nat, nat)>)
    requires w.builder == Recovering([]) && ListsReady(pending, w.tables)
    ensures Leads(w, w.(builder := Refreshing(pending, {})))
  {
    hide Leads, Complete, ListsBatches, ListsReady;
    BuilderLeads(w, ListReady(pending));
  }

  lemma SwapStep(w: World)
    requires w.builder.Refreshing? && w.builder.pending == []
    ensures Leads(w, w.(snapshot := w.builder.loaded, builder := Idle))
  {
    hide Leads, Complete, ListsBatches, ListsReady;
    BuilderLeads(w, Swap);
  }

  // ---------------------------------------------------------------- a scan

  /** The rows of these archives now belong to batch `n`, in the state that `of` gives. */
  ghost function WithRows(archives: map<nat, ArchiveRow>, n: nat, ids: set<nat>, of: nat -> ArchiveState):
    map<nat, ArchiveRow>
  {
    map a | a in archives.Keys + ids :: if a in ids then ArchiveRow(of(a), n) else archives[a]
  }

  function Members(ids: seq<nat>, k: nat): set<nat>
    requires k <= |ids|
  {
    set a | a in ids[..k]
  }

  lemma MembersNext(ids: seq<nat>, k: nat)
    requires k < |ids|
    ensures Members(ids, k + 1) == Members(ids, k) + {ids[k]}
  {
    assert ids[..k + 1] == ids[..k] + [ids[k]];
  }

  /** After `k` archives have been attached. */
  ghost function Attaches(w: World, ids: seq<nat>, isNew: bool, k: nat): World
    requires k <= |ids|
  {
    var n := w.nextBatch;
    w.(tables := Tables(w.tables.batches[n := Batch(PARSING, {}, None)],
                        WithRows(w.tables.archives, n, Members(ids, k), a => PENDING)),
       nextBatch := n + 1, holder := Attaching(n, ids, k, isNew))
  }

  lemma Opens(w: World, ids: seq<nat>, isNew: bool)
    requires w.holder == NoLock && (forall b: nat :: !Is(w.tables, b, PARSING)) && Selectable(ids, w)
    requires isNew == (ids[0] !in w.tables.archives)
    ensures Leads(w, Attaches(w, ids, isNew, 0))
  {
    hide Leads, PendingPrefix, FreshPrefix, BatchFailed, Attaches;
    HolderLeads(w, LockScan([]));
    var locked := w.(holder := ScanRecovering([]));
    HolderLeads(locked, Select(ids));
    var selected := w.(holder := Selected(ids, isNew));
    LeadsOn(w, locked, selected);
    OpensBatch(w, ids, isNew);
    LeadsOn(w, selected, Attaches(w, ids, isNew, 0));
  }

  lemma OpensBatch(w: World, ids: seq<nat>, isNew: bool)
    ensures Leads(w.(holder := Selected(ids, isNew)), Attaches(w, ids, isNew, 0))
  {
    hide Leads, PendingPrefix, FreshPrefix, BatchFailed, ListsBatches;
    var selected := w.(holder := Selected(ids, isNew));
    HolderLeads(selected, CreateBatch);
    assert WithRows(w.tables.archives, w.nextBatch, Members(ids, 0), a => PENDING) == w.tables.archives;
    assert DoHolder(selected, CreateBatch) == Attaches(w, ids, isNew, 0);
  }

  /** What a scan may select: the archives that wait, or the next eligible ones. */
  ghost predicate Selectable(ids: seq<nat>, w: World) {
    && ids != []
    && if exists a <- w.tables.archives :: w.tables.archives[a].state == PENDING then PendingPrefix(ids, w.tables)
       else FreshPrefix(ids, w.tables, w.source)
  }

  lemma AttachStep(w: World, ids: seq<nat>, isNew: bool, k: nat)
    requires k < |ids|
    ensures Leads(Attaches(w, ids, isNew, k), Attaches(w, ids, isNew, k + 1))
  {
    hide Leads, PendingPrefix, FreshPrefix, ListsBatches;
    var v, x := Attaches(w, ids, isNew, k), Attaches(w, ids, isNew, k + 1);
    HolderLeads(v, AttachOne);
    MembersNext(ids, k);
    assert Attached(v.tables, w.nextBatch, ids[k]).archives == x.tables.archives;
    assert DoHolder(v, AttachOne) == x;
  }

  lemma {:induction false} AttachAll(w: World, ids: seq<nat>, isNew: bool, k: nat)
    requires k <= |ids|
    ensures Leads(Attaches(w, ids, isNew, 0), Attaches(w, ids, isNew, k))
  {
    hide Leads, Attaches;
    if k == 0 {
      Stays(Attaches(w, ids, isNew, 0));
    } else {
      AttachAll(w, ids, isNew, k - 1);
      AttachStep(w, ids, isNew, k - 1);
      LeadsOn(Attaches(w, ids, isNew, 0), Attaches(w, ids, isNew, k - 1), Attaches(w, ids, isNew, k));
    }
  }

  /** What becomes of an archive of the batch by its number: marked so far, or still waiting. */
  ghost function MarkOf(marked: set<nat>, good: set<nat>): nat -> ArchiveState {
    a => if a !in marked then PENDING else if a in good then ARCHIVE_PARSED else ARCHIVE_FAILED
  }

  /** After `k` of them have been marked. */
  ghost function MarksTo(w: World, ids: seq<nat>, good: set<nat>, k: nat): World
    requires k <= |ids|
  {
    var n := w.nextBatch;
    w.(tables := Tables(w.tables.batches[n := Batch(PARSING, {}, None)],
                        WithRows(w.tables.archives, n, Members(ids, |ids|), MarkOf(Members(ids, k), good))),
       nextBatch := n + 1, holder := Marking(n, ids, k, Members(ids, k) * good))
  }

  lemma StartsMarking(w: World, ids: seq<nat>, isNew: bool, good: set<nat>)
    ensures Leads(Attaches(w, ids, isNew, |ids|), MarksTo(w, ids, good, 0))
  {
    hide Leads, PendingPrefix, FreshPrefix, ListsBatches;
    var v, x := Attaches(w, ids, isNew, |ids|), MarksTo(w, ids, good, 0);
    HolderLeads(v, AttachOne);
    assert v.tables.archives == x.tables.archives;
    assert Members(ids, 0) * good == {};
    assert DoHolder(v, AttachOne) == x;
  }

  lemma MarkStep(w: World, ids: seq<nat>, good: set<nat>, k: nat)
    requires k < |ids| && Ascending(ids)
    ensures Leads(MarksTo(w, ids, good, k), MarksTo(w, ids, good, k + 1))
  {
    hide Leads, PendingPrefix, FreshPrefix, ListsBatches;
    var v, x := MarksTo(w, ids, good, k), MarksTo(w, ids, good, k + 1);
    var a := ids[k];
    HolderLeads(v, MarkOne(a in good));
    MembersNext(ids, k);
    assert ids[..|ids|] == ids && a in Members(ids, |ids|);
    assert Marked(v.tables, a, if a in good then ARCHIVE_PARSED else ARCHIVE_FAILED).archives == x.tables.archives;
    if a in good {
      assert Members(ids, k + 1) * good == Members(ids, k) * good + {a};
    } else {
      assert Members(ids, k + 1) * good == Members(ids, k) * good;
    }
    assert DoHolder(v, MarkOne(a in good)) == x;
  }

  lemma {:induction false} MarkAll(w: World, ids: seq<nat>, good: set<nat>, k: nat)
    requires k <= |ids| && Ascending(ids)
    ensures Leads(MarksTo(w, ids, good, 0), MarksTo(w, ids, good, k))
  {
    hide Leads, MarksTo, Ascending;
    if k == 0 {
      Stays(MarksTo(w, ids, good, 0));
    } else {
      MarkAll(w, ids, good, k - 1);
      MarkStep(w, ids, good, k - 1);
      LeadsOn(MarksTo(w, ids, good, 0), MarksTo(w, ids, good, k - 1), MarksTo(w, ids, good, k));
    }
  }

  lemma Finishes(w: World, ids: seq<nat>, good: set<nat>) returns (v: World)
    ensures Leads(MarksTo(w, ids, good, |ids|), v)
    ensures var m, n := MarksTo(w, ids, good, |ids|), w.nextBatch;
            var parsed := Members(ids, |ids|) * good;
            && v == m.(tables := v.tables, holder := NoLock) && v.tables.archives == m.tables.archives
            && v.tables.batches
               == w.tables.batches[n := if parsed == {} then Batch(FAILED, {}, None) else Batch(PARSED, parsed, None)]
  {
    hide Leads, PendingPrefix, FreshPrefix, ListsBatches;
    var m := MarksTo(w, ids, good, |ids|);
    HolderLeads(m, FinishScan);
    v := DoHolder(m, FinishScan);
  }

  /** Whenever nobody holds the lock and nothing waits for recovery, a scan can run to its end over any archives it may
      select, whichever of them parse: they all belong to one new batch, which is PARSED with the documents of exactly
      those that parsed, or FAILED when there are none. */
  lemma ScanCanFinish(w: World, ids: seq<nat>, good: set<nat>) returns (v: World)
    requires w.holder == NoLock && (forall b: nat :: !Is(w.tables, b, PARSING)) && Selectable(ids, w)
    ensures Leads(w, v) && v == w.(tables := v.tables, nextBatch := w.nextBatch + 1)
    ensures w.nextBatch in v.tables.batches
    ensures v.tables.batches == w.tables.batches[w.nextBatch := v.tables.batches[w.nextBatch]]
    ensures v.tables.batches[w.nextBatch]
            == if exists a <- ids :: a in good then Batch(PARSED, (set a | a in ids && a in good :: a), None)
               else Batch(FAILED, {}, None)
    ensures v.tables.archives.Keys == w.tables.archives.Keys + set a | a in ids
    ensures forall a <- v.tables.archives ::
              v.tables.archives[a] == if a !in ids then w.tables.archives[a]
                                      else ArchiveRow(if a in good then ARCHIVE_PARSED else ARCHIVE_FAILED, w.nextBatch)
  {
    hide Leads, PendingPrefix, FreshPrefix;
    assert Ascending(ids) by { SelectedAscend(ids, w); }
    var isNew := ids[0] !in w.tables.archives;
    var none, all := Attaches(w, ids, isNew, 0), Attaches(w, ids, isNew, |ids|);
    Opens(w, ids, isNew);
    AttachAll(w, ids, isNew, |ids|);
    LeadsOn(w, none, all);
    StartsMarking(w, ids, isNew, good);
    LeadsOn(w, all, MarksTo(w, ids, good, 0));
    MarkAll(w, ids, good, |ids|);
    LeadsOn(w, MarksTo(w, ids, good, 0), MarksTo(w, ids, good, |ids|));
    v := Finishes(w, ids, good);
    LeadsOn(w, MarksTo(w, ids, good, |ids|), v);
    assert ids[..|ids|] == ids;
    var parsed := set a | a in ids && a in good :: a;
    assert Members(ids, |ids|) * good == parsed;
    if exists a <- ids :: a in good {
      var a :| a in ids && a in good;
      assert a in parsed;
    } else {
      assert parsed == {};
    }
  }

  lemma SelectedAscend(ids: seq<nat>, w: World)
    requires Selectable(ids, w)
    ensures Ascending(ids)
  {
  }
}
