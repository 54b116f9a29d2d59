// INDEXED archives: all of them can be searched if and only if no rebuild of such archives was cut off between its
// two updates; a lost one stays lost until its rebuild is requested again.

module IndexRebuild {
  import opened Common
  import opened IndexTables
  import opened IndexLifecycle
  import opened IndexSafety

  /** Every INDEXED archive can be searched, or its batch is being rebuilt. */
  ghost predicate IndexedOk(w: World) {
    forall a <- w.tables.archives :: w.tables.archives[a].state == INDEXED ==>
      Is(w.tables, w.tables.archives[a].batch, READY) || w.holder == RebuildFailed(w.tables.archives[a].batch)
  }

  lemma BuilderKeepsIndexed(w: World, e: Event)
    requires IndexedOk(w) && CanBuilder(w, e)
    ensures IndexedOk(DoBuilder(w, e))
  {
    hide CanBuilder, DoBuilder;
    BuilderStepChanges(w, e);
    BuilderLeavesHolder(w, e);
  }

  lemma ScanKeepsIndexed(w: World, e: Event)
    requires TablesOk(w.tables, w.nextBatch) && HolderOk(w) && IndexedOk(w) && CanHolder(w, e)
    requires e.LockScan? || e.FailArchives? || e.FailBatch? || e.Select? || e.CreateBatch? || e.AttachOne?
    ensures IndexedOk(DoHolder(w, e))
  {
    hide RemoveOne, Rest, BelongTo, Ascending, ListsBatches, PendingPrefix, FreshPrefix, Contribute;
    if e.FailArchives? || e.FailBatch? {
      HeadOf(w);
    }
  }

  lemma RebuildKeepsIndexed(w: World, e: Event)
    requires HolderOk(w) && IndexedOk(w) && CanHolder(w, e)
    requires !(e.LockScan? || e.FailArchives? || e.FailBatch? || e.Select? || e.CreateBatch? || e.AttachOne?)
    ensures IndexedOk(DoHolder(w, e))
  {
    hide RemoveOne, Rest, BelongTo, Ascending, ListsBatches, PendingPrefix, FreshPrefix, Contribute;
  }

  lemma HolderKeepsIndexed(w: World, e: Event)
    requires TablesOk(w.tables, w.nextBatch) && HolderOk(w) && IndexedOk(w) && CanHolder(w, e)
    ensures IndexedOk(DoHolder(w, e))
  {
    hide *;
    if e.LockScan? || e.FailArchives? || e.FailBatch? || e.Select? || e.CreateBatch? || e.AttachOne? {
      ScanKeepsIndexed(w, e);
    } else {
      RebuildKeepsIndexed(w, e);
    }
  }

  lemma OneActor(w: World, e: Event)
    ensures CanHolder(w, e) ==> !CanBuilder(w, e)
    ensures CanOutside(w, e) ==> !CanBuilder(w, e) && !CanHolder(w, e)
  {
    hide ListsBatches, ListsReady, Complete, PendingPrefix, FreshPrefix;
  }

  /** A rebuild stops after its batch is FAILED and before the archives wait, and one of them is INDEXED. */
  ghost predicate Loses(w: World, e: Event) {
    && e.HolderStops? && w.holder.RebuildFailed?
    && exists a <- w.tables.archives :: w.tables.archives[a] == ArchiveRow(INDEXED, w.holder.batch)
  }

  lemma StopIff(w: World)
    requires HolderOk(w) && IndexedOk(w)
    ensures IndexedOk(w.(holder := NoLock)) <==> !Loses(w, HolderStops)
  {
    hide Rest, BelongTo, Ascending, Contribute;
    if Loses(w, HolderStops) {
      var a :| a in w.tables.archives && w.tables.archives[a] == ArchiveRow(INDEXED, w.holder.batch);
    }
  }

  /** A step leaves an INDEXED archive unsearched exactly when it cuts such a rebuild off. */
  lemma StepIndexedIff(w: World, e: Event)
    requires Inv(w) && IndexedOk(w) && Can(w, e)
    ensures IndexedOk(Do(w, e)) <==> !Loses(w, e)
  {
    hide TablesOk, ReadyOk, BuilderOk, HolderOk, SourceOk, CanBuilder, CanHolder, DoBuilder, DoHolder, IndexedOk, Loses;
    OneActor(w, e);
    if CanBuilder(w, e) {
      BuilderKeepsIndexed(w, e);
      LosesOutside(w, e);
    } else if CanHolder(w, e) {
      HolderKeepsIndexed(w, e);
      LosesOutside(w, e);
    } else if e.HolderStops? {
      StopIff(w);
    } else {
      LosesOutside(w, e);
      OutsideIndexed(w, e);
    }
  }

  lemma LosesOutside(w: World, e: Event)
    ensures Loses(w, e) ==> CanOutside(w, e) && e.HolderStops?
  {
  }

  lemma OutsideIndexed(w: World, e: Event)
    requires IndexedOk(w) && CanOutside(w, e) && !e.HolderStops?
    ensures IndexedOk(DoOutside(w, e))
  {
  }

  lemma {:induction false} NothingLost(ws: seq<World>, es: seq<Event>, k: nat)
    requires IsRun(ws, es) && k < |ws| && |ws| == |es| + 1
    requires forall i :: 0 <= i < k ==> !Loses(ws[i], es[i])
    ensures IndexedOk(ws[k])
  {
    hide Inv, Can, Do, IsRun, Loses;
    if k == 0 {
      RunStart(ws, es);
    } else {
      NothingLost(ws, es, k - 1);
      RunInv(ws, es, k - 1);
      RunStep(ws, es, k);
      StepIndexedIff(ws[k - 1], es[k - 1]);
    }
  }

  /** Over every run, all INDEXED archives can be searched at all times, except while their batch is between the two
      updates of a rebuild, if and only if no rebuild of a batch with an INDEXED archive is cut off there. */
  lemma IndexedIsSearchedIff(ws: seq<World>, es: seq<Event>)
    requires IsRun(ws, es)
    ensures |ws| == |es| + 1
    ensures (forall k :: 0 <= k < |ws| ==> IndexedOk(ws[k])) <==> (forall i :: 0 <= i < |es| ==> !Loses(ws[i], es[i]))
  {
    hide Inv, Can, Do, IsRun, Loses, IndexedOk;
    RunStart(ws, es);
    if forall k :: 0 <= k < |ws| ==> IndexedOk(ws[k]) {
      forall i | 0 <= i < |es|
        ensures !Loses(ws[i], es[i])
      {
        RunInv(ws, es, i);
        RunStep(ws, es, i + 1);
        StepIndexedIff(ws[i], es[i]);
      }
    }
    if forall i :: 0 <= i < |es| ==> !Loses(ws[i], es[i]) {
      forall k | 0 <= k < |ws|
        ensures IndexedOk(ws[k])
      {
        NothingLost(ws, es, k);
      }
    }
  }

  // ---------------------------------------------------------------- lost archives

  /** An INDEXED archive in a FAILED batch: no scan takes it up again, and no search sees it. */
  predicate Lost(w: World, b: nat, a: nat) {
    a in w.tables.archives && w.tables.archives[a] == ArchiveRow(INDEXED, b) && Is(w.tables, b, FAILED)
  }

  /** The second update of a rebuild of the batch. */
  predicate Repairs(w: World, e: Event, b: nat) {
    e.RebuildArchiveRows? && w.holder == RebuildFailed(b)
  }

  /** What a cut rebuild leaves behind is lost, and nobody is rebuilding it. */
  lemma LosesMeansLost(w: World, e: Event)
    requires Inv(w) && Can(w, e) && Loses(w, e)
    ensures exists a :: Lost(Do(w, e), w.holder.batch, a)
    ensures !Rebuilding(Do(w, e), w.holder.batch)
  {
    hide TablesOk, ReadyOk, BuilderOk, SourceOk, Rest, BelongTo, Ascending, Contribute;
    OneActor(w, e);
    var a :| a in w.tables.archives && w.tables.archives[a] == ArchiveRow(INDEXED, w.holder.batch);
    assert Lost(Do(w, e), w.holder.batch, a);
  }

  lemma BuilderLeavesLost(w: World, e: Event, b: nat, a: nat)
    requires CanBuilder(w, e) && Lost(w, b, a)
    ensures Lost(DoBuilder(w, e), b, a)
  {
    hide CanBuilder, DoBuilder;
    BuilderStepChanges(w, e);
  }

  /** The lock holder changes waiting archives and those of a PARSING batch, and in a rebuild those of its batch. */
  lemma HolderLostIff(w: World, e: Event, b: nat, a: nat)
    requires TablesOk(w.tables, w.nextBatch) && HolderOk(w) && CanHolder(w, e) && Lost(w, b, a)
    ensures Lost(DoHolder(w, e), b, a) <==> !Repairs(w, e, b)
    ensures Repairs(w, e, b) ==> a in DoHolder(w, e).tables.archives
                                 && DoHolder(w, e).tables.archives[a] == ArchiveRow(PENDING, b)
  {
    hide TablesOk, RemoveOne, PendingPrefix, FreshPrefix, ListsBatches, Rest, Contribute, BelongTo, Ascending;
    HolderStepChanges(w, e);
    if e.FailArchives? || e.FailBatch? {
      HeadOf(w);
    } else if e.AttachOne? && w.holder.done < |w.holder.ids| {
      NextToAttach(w);
    } else if e.MarkOne? || e.FailOne? {
      NextToMark(w);
    }
  }

  /** A lost archive stays lost exactly until the second update of a rebuild of its batch, which makes it wait. */
  lemma LostStepIff(w: World, e: Event, b: nat, a: nat)
    requires Inv(w) && Can(w, e) && Lost(w, b, a)
    ensures Lost(Do(w, e), b, a) <==> !Repairs(w, e, b)
    ensures Repairs(w, e, b) ==> a in Do(w, e).tables.archives && Do(w, e).tables.archives[a] == ArchiveRow(PENDING, b)
  {
    hide TablesOk, ReadyOk, BuilderOk, HolderOk, SourceOk, CanBuilder, CanHolder, DoBuilder, DoHolder, Lost;
    OneActor(w, e);
    RepairsHolds(w, e, b);
    if CanBuilder(w, e) {
      BuilderLeavesLost(w, e, b, a);
    } else if CanHolder(w, e) {
      HolderLostIff(w, e, b, a);
    } else {
      OutsideLost(w, e, b, a);
    }
  }

  lemma RepairsHolds(w: World, e: Event, b: nat)
    ensures Repairs(w, e, b) ==> CanHolder(w, e)
  {
  }

  lemma OutsideLost(w: World, e: Event, b: nat, a: nat)
    requires CanOutside(w, e) && Lost(w, b, a)
    ensures Lost(DoOutside(w, e), b, a)
  {
  }

  /** Along a run: lost from state `j` to state `k` if and only if no rebuild of the batch repairs it in between. */
  lemma {:induction false} LostUntilRepaired(ws: seq<World>, es: seq<Event>, j: nat, k: nat, b: nat, a: nat)
    requires IsRun(ws, es) && j <= k < |ws| && Lost(ws[j], b, a)
    ensures |ws| == |es| + 1
    ensures (forall i :: j <= i <= k ==> Lost(ws[i], b, a)) <==> (forall i :: j <= i < k ==> !Repairs(ws[i], es[i], b))
    decreases k
  {
    hide Inv, Can, Do, IsRun, Lost, Repairs;
    RunStart(ws, es);
    if j < k {
      LostUntilRepaired(ws, es, j, k - 1, b, a);
      if Lost(ws[k - 1], b, a) {
        RunInv(ws, es, k - 1);
        RunStep(ws, es, k);
        LostStepIff(ws[k - 1], es[k - 1], b, a);
      }
    }
  }

  // ---------------------------------------------------------------- requests

  predicate Rebuilding(w: World, b: nat) {
    w.holder == RebuildChosen(b) || w.holder == RebuildFailed(b)
  }

  /** A rebuild is requested for an archive of the batch. */
  predicate Requests(w: World, e: Event, b: nat) {
    e.LockRebuild? && e.archive in w.tables.archives && w.tables.archives[e.archive].batch == b
  }

  lemma NoRebuildStep(w: World, e: Event, b: nat)
    requires Can(w, e) && !Rebuilding(w, b) && !Requests(w, e, b)
    ensures !Rebuilding(Do(w, e), b)
  {
    hide CanBuilder, DoBuilder, RemoveOne, PendingPrefix, FreshPrefix, ListsBatches;
    if CanBuilder(w, e) {
      BuilderLeavesHolder(w, e);
    }
  }

  /** A lost archive stays lost as long as nobody requests a rebuild of its batch. */
  lemma {:induction false} LostUntilRequested(ws: seq<World>, es: seq<Event>, j: nat, k: nat, b: nat, a: nat)
    requires IsRun(ws, es) && j <= k < |ws| && |ws| == |es| + 1 && Lost(ws[j], b, a) && !Rebuilding(ws[j], b)
    requires forall i :: j <= i < k ==> !Requests(ws[i], es[i], b)
    ensures Lost(ws[k], b, a) && !Rebuilding(ws[k], b)
    decreases k
  {
    hide Inv, Can, Do, IsRun, Lost, Requests;
    if j < k {
      LostUntilRequested(ws, es, j, k - 1, b, a);
      RunInv(ws, es, k - 1);
      RunStep(ws, es, k);
      LostStepIff(ws[k - 1], es[k - 1], b, a);
      NoRebuildStep(ws[k - 1], es[k - 1], b);
    }
  }

  lemma RequestLocks(w: World, b: nat, a: nat)
    requires Lost(w, b, a) && w.holder == NoLock
    ensures Can(w, LockRebuild(a)) && Do(w, LockRebuild(a)) == w.(holder := RebuildChosen(b))
  {
    hide CanBuilder, DoBuilder;
    OneActor(w, LockRebuild(a));
  }

  lemma RequestFails(w: World, b: nat)
    requires w.holder == RebuildChosen(b)
    ensures Can(w, RebuildBatchRow)
    ensures Do(w, RebuildBatchRow) == w.(tables := RebuildBatch(w.tables, b), holder := RebuildFailed(b))
  {
    hide CanBuilder, DoBuilder, RebuildBatch;
    OneActor(w, RebuildBatchRow);
  }

  lemma RequestWaits(w: World, b: nat, a: nat)
    requires w.holder == RebuildFailed(b) && a in w.tables.archives && w.tables.archives[a].batch == b
    ensures Can(w, RebuildArchiveRows)
    ensures var v := Do(w, RebuildArchiveRows);
            a in v.tables.archives && v.tables.archives[a] == ArchiveRow(PENDING, b)
  {
    hide CanBuilder, DoBuilder;
    OneActor(w, RebuildArchiveRows);
  }

  /** An undisturbed request for the archive makes it wait for the next scan. */
  lemma RequestRepairs(w: World, b: nat, a: nat)
    requires Lost(w, b, a) && w.holder == NoLock
    ensures Can(w, LockRebuild(a))
    ensures var locked := Do(w, LockRebuild(a));
            && Can(locked, RebuildBatchRow)
            && var failed := Do(locked, RebuildBatchRow);
               && Can(failed, RebuildArchiveRows)
               && var v := Do(failed, RebuildArchiveRows);
                  a in v.tables.archives && v.tables.archives[a] == ArchiveRow(PENDING, b)
  {
    hide Can, Do;
    RequestLocks(w, b, a);
    var locked := w.(holder := RebuildChosen(b));
    RequestFails(locked, b);
    RequestWaits(locked.(tables := RebuildBatch(w.tables, b), holder := RebuildFailed(b)), b, a);
  }

  // ---------------------------------------------------------------- a run that loses an archive

  ghost predicate Reachable(w: World) {
    exists ws: seq<World>, es: seq<Event> :: IsRun(ws, es) && ws[|es|] == w
  }

  lemma Begin()
    ensures Reachable(Empty())
  {
    assert IsRun([Empty()], []);
  }

  lemma Go(w: World, e: Event)
    requires Reachable(w) && Can(w, e)
    ensures Reachable(Do(w, e))
  {
    hide Can, Do;
    var ws: seq<World>, es: seq<Event> :| IsRun(ws, es) && ws[|es|] == w;
    var vs, fs := ws + [Do(w, e)], es + [e];
    assert IsRun(vs, fs) && vs[|fs|] == Do(w, e);
  }

  lemma Builds(w: World, e: Event)
    requires Reachable(w) && CanBuilder(w, e)
    ensures Reachable(DoBuilder(w, e))
  {
    hide Reachable, CanBuilder, DoBuilder;
    Go(w, e);
  }

  lemma Holder(w: World, e: Event)
    requires Reachable(w) && CanHolder(w, e)
    ensures Reachable(DoHolder(w, e))
  {
    hide Reachable, CanBuilder, CanHolder, DoHolder;
    OneActor(w, e);
    Go(w, e);
  }

  lemma Outside(w: World, e: Event)
    requires Reachable(w) && CanOutside(w, e)
    ensures Reachable(DoOutside(w, e))
  {
    hide Reachable, CanBuilder, CanHolder, CanOutside, DoOutside;
    OneActor(w, e);
    Go(w, e);
  }

  /** Archive 1 is selected by a scan. */
  lemma Selected1() returns (w: World)
    ensures Reachable(w) && w == Empty().(source := [1], holder := Selected([1], true))
  {
    hide Reachable, CanBuilder, DoBuilder;
    w := Empty();
    Begin();
    Outside(w, AppendSource(1));
    assert [] + [1] == [1];
    w := w.(source := [1]);
    Holder(w, LockScan([]));
    w := w.(holder := ScanRecovering([]));
    Holder(w, Select([1]));
    w := w.(holder := Selected([1], true));
  }

  /** It is scanned into batch 1. */
  lemma Scanned() returns (w: World)
    ensures Reachable(w)
    ensures w == World(Tables(map[1 := Batch(PARSED, {1}, None)], map[1 := ArchiveRow(ARCHIVE_PARSED, 1)]), 2, [1],
                       map[], map[], {}, Idle, NoLock)
  {
    hide Reachable, CanBuilder, DoBuilder, ListsBatches, PendingPrefix, FreshPrefix, RemoveOne, ArchivesOf;
    w := Selected1();
    Holder(w, CreateBatch);
    w := w.(tables := Created(w.tables, 1), nextBatch := 2, holder := Attaching(1, [1], 0, true));
    Holder(w, AttachOne);
    w := w.(tables := Attached(w.tables, 1, 1), holder := Attaching(1, [1], 1, true));
    Holder(w, AttachOne);
    w := w.(holder := Marking(1, [1], 0, {}));
    Holder(w, MarkOne(true));
    assert {} + {1} == {1};
    w := w.(tables := Marked(w.tables, 1, ARCHIVE_PARSED), holder := Marking(1, [1], 1, {1}));
    Holder(w, FinishScan);
    w := w.(tables := BatchParsed(w.tables, 1, {1}), holder := NoLock);
  }

  /** The builder marks batch 1 and writes its Segment. */
  lemma Written() returns (w: World)
    ensures Reachable(w)
    ensures w == World(Tables(map[1 := Batch(BUILDING, {1}, None)], map[1 := ArchiveRow(ARCHIVE_PARSED, 1)]), 2, [1],
                       map[1 := SegmentDir(5, ALL_FILES)], map[], {}, Writing(1), NoLock)
  {
    hide Reachable, CanHolder, DoHolder, RemoveOne, WriteOne, Published;
    w := Scanned();
    Builds(w, StartRecovery([]));
    w := w.(builder := Recovering([]));
    Builds(w, Choose(1));
    w := w.(builder := Chosen(1));
    Builds(w, MarkBuilding);
    w := w.(tables := Building(w.tables, 1).1, builder := Writing(1));
    w := WriteFiles(w, [FilesFile, DocumentsFile, PostingsFile, TermsFile, ManifestFile]);
    assert w.building[1].files == ALL_FILES;
    assert w.building == map[1 := SegmentDir(5, ALL_FILES)];
  }

  /** The files of the Segment are written one by one. */
  lemma {:induction false} WriteFiles(before: World, files: seq<SegmentFile>) returns (w: World)
    requires Reachable(before) && before.builder == Writing(1) && files != []
    requires before.building == map[] || (before.building.Keys == {1} && before.building[1].hash == 5)
    ensures Reachable(w) && w == before.(building := w.building)
    ensures w.building.Keys == {1} && w.building[1].hash == 5
    ensures forall f :: f in w.building[1].files
                        <==> f in files || (1 in before.building && f in before.building[1].files)
    decreases |files|
  {
    hide Reachable;
    w := WriteStep(before, files[0]);
    if |files| > 1 {
      w := WriteFiles(w, files[1..]);
    }
  }

  lemma WriteStep(before: World, file: SegmentFile) returns (w: World)
    requires Reachable(before) && before.builder == Writing(1)
    requires before.building == map[] || (before.building.Keys == {1} && before.building[1].hash == 5)
    ensures Reachable(w) && w == before.(building := WriteOne(before.building, 1, 5, file))
  {
    hide Reachable, CanHolder, DoHolder, ListsBatches, ListsReady, RemoveOne, WriteOne, Published, Building,
         ResetBuilding, BuildFailed, Complete;
    Builds(before, WriteFile(5, file));
    w := before.(building := WriteOne(before.building, 1, 5, file));
  }

  /** The Segment is moved to its place. */
  lemma Moved() returns (w: World)
    ensures Reachable(w)
    ensures w == World(Tables(map[1 := Batch(BUILDING, {1}, None)], map[1 := ArchiveRow(ARCHIVE_PARSED, 1)]), 2, [1],
                       map[], map[1 := SegmentDir(5, ALL_FILES)], {}, Synced(1, 5), NoLock)
  {
    hide Reachable, CanHolder, DoHolder, ListsBatches, ListsReady, RemoveOne, WriteOne, Published, Building,
         ResetBuilding, BuildFailed;
    w := Written();
    Builds(w, Check);
    w := w.(builder := Checked(1, 5));
    Builds(w, Rename);
    w := w.(building := map[], published := map[1 := SegmentDir(5, ALL_FILES)], builder := Renamed(1, 5));
    Builds(w, Sync);
    w := w.(builder := Synced(1, 5));
  }

  /** The batch is published. */
  lemma ArchiveIndexed() returns (w: World)
    ensures Reachable(w)
    ensures w == World(Tables(map[1 := Batch(READY, {1}, Some(5))], map[1 := ArchiveRow(INDEXED, 1)]), 2, [1],
                       map[], map[1 := SegmentDir(5, ALL_FILES)], {}, Recovering([]), NoLock)
  {
    hide Reachable, CanHolder, DoHolder, ListsBatches, ListsReady, RemoveOne, WriteOne, Building, ResetBuilding,
         BuildFailed, Complete;
    w := Moved();
    Builds(w, Publish);
    assert w.tables.archives[1].batch == 1;
    w := w.(tables := Published(w.tables, 1, 5).1, builder := Recovering([]));
  }

  /** Its rebuild stops between the two updates. */
  lemma RebuildCutHappens()
    ensures exists w :: Reachable(w) && !IndexedOk(w) && w.holder == NoLock
  {
    hide Reachable, CanBuilder, DoBuilder, ListsBatches, PendingPrefix, FreshPrefix, RemoveOne, ArchivesOf;
    var w := ArchiveIndexed();
    Holder(w, LockRebuild(1));
    w := w.(holder := RebuildChosen(1));
    Holder(w, RebuildBatchRow);
    w := w.(tables := RebuildBatch(w.tables, 1), holder := RebuildFailed(1));
    Outside(w, HolderStops);
    w := w.(holder := NoLock);
  }
}
