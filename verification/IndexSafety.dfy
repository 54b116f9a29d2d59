// Every step keeps the invariants of the index lifecycle; what holds over all runs.

module IndexSafety {
  import opened Common
  import opened IndexTables
  import opened IndexLifecycle

  // ---------------------------------------------------------------- statements and the tables

  lemma CreateKeeps(t: Tables, next: nat)
    requires TablesOk(t, next)
    ensures TablesOk(Created(t, next), next + 1)
  {
  }

  /** Attaching an archive that waits, or was never seen, takes nothing from a live batch. */
  lemma AttachKeeps(t: Tables, next: nat, b: nat, a: nat)
    requires TablesOk(t, next) && Is(t, b, PARSING) && (a in t.archives ==> t.archives[a].state == PENDING)
    ensures TablesOk(Attached(t, b, a), next)
  {
  }

  lemma MarkKeeps(t: Tables, next: nat, a: nat, state: ArchiveState)
    requires TablesOk(t, next) && a in t.archives && Is(t, t.archives[a].batch, PARSING) && state != INDEXED
    ensures TablesOk(Marked(t, a, state), next)
  {
  }

  lemma ParsedKeeps(t: Tables, next: nat, b: nat, contributors: set<nat>)
    requires TablesOk(t, next) && Is(t, b, PARSING) && Contribute(t, b, contributors) && contributors != {}
    ensures TablesOk(BatchParsed(t, b, contributors), next)
  {
  }

  lemma FailKeeps(t: Tables, next: nat, b: nat)
    requires TablesOk(t, next)
    ensures TablesOk(BatchFailed(t, b), next) && TablesOk(RebuildBatch(t, b), next)
  {
  }

  lemma ArchivesKeep(t: Tables, next: nat, b: nat, state: ArchiveState)
    requires TablesOk(t, next) && (Is(t, b, PARSING) || Is(t, b, FAILED)) && state != ARCHIVE_PARSED && state != INDEXED
    ensures TablesOk(ArchivesOf(t, b, state), next)
  {
  }

  lemma BuildKeeps(t: Tables, next: nat, b: nat)
    requires TablesOk(t, next)
    ensures TablesOk(Building(t, b).1, next) && TablesOk(ResetBuilding(t, b).1, next)
  {
  }

  lemma BuildFailKeeps(t: Tables, next: nat, b: nat)
    requires TablesOk(t, next)
    ensures TablesOk(BuildFailed(t, b).1, next)
  {
  }

  lemma PublishKeeps(t: Tables, next: nat, b: nat, hash: nat)
    requires TablesOk(t, next)
    ensures TablesOk(Published(t, b, hash).1, next)
  {
  }

  lemma BuilderKeepsTables(w: World, e: Event)
    requires TablesOk(w.tables, w.nextBatch) && CanBuilder(w, e)
    ensures TablesOk(DoBuilder(w, e).tables, DoBuilder(w, e).nextBatch)
  {
    hide TablesOk, RemoveOne, WriteOne, ListsReady, ListsBatches, Complete, Building, ResetBuilding, BuildFailed,
         Published;
    forall b
      ensures TablesOk(Building(w.tables, b).1, w.nextBatch) && TablesOk(ResetBuilding(w.tables, b).1, w.nextBatch)
      ensures TablesOk(BuildFailed(w.tables, b).1, w.nextBatch)
    {
      BuildKeeps(w.tables, w.nextBatch, b);
      BuildFailKeeps(w.tables, w.nextBatch, b);
    }
    forall b, hash
      ensures TablesOk(Published(w.tables, b, hash).1, w.nextBatch)
    {
      PublishKeeps(w.tables, w.nextBatch, b, hash);
    }
  }

  /** The archive that a scan attaches next is waiting or unseen. */
  lemma NextToAttach(w: World)
    requires HolderOk(w) && w.holder.Attaching? && w.holder.done < |w.holder.ids|
    ensures Is(w.tables, w.holder.batch, PARSING)
    ensures var a := w.holder.ids[w.holder.done];
            && (w.holder.isNew ==> NotObserved(w.tables, a) && a in w.source)
            && (!w.holder.isNew ==> a in w.tables.archives && w.tables.archives[a].state == PENDING)
  {
    var rest := w.holder.ids[w.holder.done..];
    assert rest[0] in rest;
  }

  /** The archive that a scan marks next belongs to its batch. */
  lemma NextToMark(w: World)
    requires HolderOk(w) && (w.holder.Marking? || w.holder.Failing?) && w.holder.done < |w.holder.ids|
    ensures var a := w.holder.ids[w.holder.done];
            && a in w.tables.archives && w.tables.archives[a].batch == w.holder.batch
            && Is(w.tables, w.holder.batch, PARSING)
  {
    assert w.holder.ids[w.holder.done] in w.holder.ids;
  }

  lemma HeadOf(w: World)
    requires HolderOk(w) && (w.holder.ScanRecovering? || w.holder.ScanFailing?) && w.holder.todo != []
    ensures Is(w.tables, w.holder.todo[0], PARSING)
  {
    assert w.holder.todo[0] in w.holder.todo;
  }

  lemma HolderKeepsTables(w: World, e: Event)
    requires TablesOk(w.tables, w.nextBatch) && HolderOk(w) && CanHolder(w, e)
    ensures TablesOk(DoHolder(w, e).tables, DoHolder(w, e).nextBatch)
  {
    hide TablesOk, RemoveOne, Rest, BelongTo, Ascending, ListsBatches, PendingPrefix, FreshPrefix, Contribute,
         Attached, Marked, BatchParsed, BatchFailed, ArchivesOf, RebuildBatch, Created;
    var t, next := w.tables, w.nextBatch;
    match e
    case FailArchives =>
      HeadOf(w);
      ArchivesKeep(t, next, w.holder.todo[0], ARCHIVE_FAILED);
    case FailBatch => FailKeeps(t, next, w.holder.todo[0]);
    case CreateBatch => CreateKeeps(t, next);
    case AttachOne =>
      if w.holder.done < |w.holder.ids| {
        NextToAttach(w);
        AttachKeeps(t, next, w.holder.batch, w.holder.ids[w.holder.done]);
      }
    case MarkOne(success) =>
      NextToMark(w);
      MarkKeeps(t, next, w.holder.ids[w.holder.done], if success then ARCHIVE_PARSED else ARCHIVE_FAILED);
    case FinishScan =>
      FailKeeps(t, next, w.holder.batch);
      if w.holder.parsed != {} {
        ParsedKeeps(t, next, w.holder.batch, w.holder.parsed);
      }
    case FailOne(stored) =>
      NextToMark(w);
      MarkKeeps(t, next, w.holder.ids[w.holder.done], ARCHIVE_FAILED);
    case FailScan => FailKeeps(t, next, w.holder.batch);
    case RebuildBatchRow => FailKeeps(t, next, w.holder.batch);
    case RebuildArchiveRows => ArchivesKeep(t, next, w.holder.batch, PENDING);
    case _ =>
  }

  // ---------------------------------------------------------------- what a step may do to the batches

  /** Steps of the builder: one batch in hand changes, FAILED batches do not, and archives only move
      from PARSED to INDEXED, in the batch that becomes READY. */
  ghost predicate BuilderChange(t: Tables, u: Tables, b: nat) {
    && u.batches.Keys == t.batches.Keys && u.archives.Keys == t.archives.Keys
    && (forall c <- t.batches :: c != b || !(Is(t, c, PARSED) || Is(t, c, BUILDING)) ==> u.batches[c] == t.batches[c])
    && (forall c <- t.batches :: u.batches[c].contributors == t.batches[c].contributors)
    && (Is(t, b, PARSED) || Is(t, b, BUILDING) ==> !Is(u, b, PARSING))
    && (forall a <- t.archives :: u.archives[a].batch == t.archives[a].batch)
    && forall a <- t.archives :: u.archives[a] != t.archives[a] ==>
         && t.archives[a].batch == b && Is(t, b, BUILDING) && Is(u, b, READY)
         && t.archives[a].state == ARCHIVE_PARSED && u.archives[a].state == INDEXED
  }

  lemma UpdateChanges(t: Tables, b: nat)
    ensures BuilderChange(t, t, b) && BuilderChange(t, Building(t, b).1, b)
            && BuilderChange(t, ResetBuilding(t, b).1, b)
    ensures BuilderChange(t, BuildFailed(t, b).1, b)
  {
  }

  lemma PublishChanges(t: Tables, b: nat, hash: nat)
    ensures BuilderChange(t, Published(t, b, hash).1, b)
  {
  }

  /** The batch a builder step is about. */
  function Subject(w: World): nat {
    match w.builder
    case Recovering(todo) => if todo == [] then 0 else todo[0]
    case Recovered(_, todo) => if todo == [] then 0 else todo[0]
    case Corrupted(todo) => if todo == [] then 0 else todo[0]
    case Chosen(b) => b
    case Writing(b) => b
    case Checked(b, _) => b
    case Renamed(b, _) => b
    case Synced(b, _) => b
    case Aborting(b) => b
    case _ => 0
  }

  lemma BuilderStepChanges(w: World, e: Event)
    requires CanBuilder(w, e)
    ensures BuilderChange(w.tables, DoBuilder(w, e).tables, Subject(w))
  {
    hide BuilderChange, Building, ResetBuilding, BuildFailed, Published, ListsBatches, ListsReady, RemoveOne, WriteOne,
         Complete;
    forall hash
      ensures BuilderChange(w.tables, Published(w.tables, Subject(w), hash).1, Subject(w))
    {
      PublishChanges(w.tables, Subject(w), hash);
    }
    UpdateChanges(w.tables, Subject(w));
  }

  /** Steps of the lock holder: a batch changes only to FAILED, or from PARSING to PARSED, or is new. */
  ghost predicate HolderChange(t: Tables, u: Tables) {
    && t.batches.Keys <= u.batches.Keys && t.archives.Keys <= u.archives.Keys
    && (forall c <- t.batches ::
          u.batches[c] == t.batches[c] || Is(u, c, FAILED) || (Is(t, c, PARSING) && Is(u, c, PARSED)))
    && (forall c <- u.batches :: c in t.batches || Is(u, c, PARSING))
  }

  /** The statements of the lock holder. */
  lemma ArchiveChanges(t: Tables, b: nat, a: nat, state: ArchiveState)
    ensures HolderChange(t, t) && HolderChange(t, Attached(t, b, a)) && HolderChange(t, Marked(t, a, state))
    ensures HolderChange(t, ArchivesOf(t, b, state))
  {
    assert ArchivesOf(t, b, state).archives.Keys == t.archives.Keys;
  }

  lemma BatchChanges(t: Tables, b: nat)
    ensures HolderChange(t, BatchFailed(t, b)) && HolderChange(t, RebuildBatch(t, b))
    ensures b !in t.batches ==> HolderChange(t, Created(t, b))
  {
  }

  lemma ParsedChanges(t: Tables, b: nat, contributors: set<nat>)
    requires Is(t, b, PARSING)
    ensures HolderChange(t, BatchParsed(t, b, contributors))
  {
  }

  lemma HolderStepChanges(w: World, e: Event)
    requires TablesOk(w.tables, w.nextBatch) && HolderOk(w) && CanHolder(w, e)
    ensures HolderChange(w.tables, DoHolder(w, e).tables)
  {
    hide HolderChange, Created, Attached, Marked, BatchParsed, BatchFailed, ArchivesOf, RebuildBatch,
         RemoveOne, Rest, BelongTo, Ascending, ListsBatches, PendingPrefix, FreshPrefix, Contribute;
    var t := w.tables;
    ArchiveChanges(t, 0, 0, PENDING);
    match e
    case FailArchives => ArchiveChanges(t, w.holder.todo[0], 0, ARCHIVE_FAILED);
    case FailBatch => BatchChanges(t, w.holder.todo[0]);
    case CreateBatch => BatchChanges(t, w.nextBatch);
    case AttachOne =>
      if w.holder.done < |w.holder.ids| {
        ArchiveChanges(t, w.holder.batch, w.holder.ids[w.holder.done], PENDING);
      }
    case MarkOne(success) =>
      ArchiveChanges(t, 0, w.holder.ids[w.holder.done], if success then ARCHIVE_PARSED else ARCHIVE_FAILED);
    case FinishScan =>
      ParsedChanges(t, w.holder.batch, w.holder.parsed);
      BatchChanges(t, w.holder.batch);
    case FailOne(_) => ArchiveChanges(t, 0, w.holder.ids[w.holder.done], ARCHIVE_FAILED);
    case FailScan => BatchChanges(t, w.holder.batch);
    case RebuildBatchRow => BatchChanges(t, w.holder.batch);
    case RebuildArchiveRows => ArchiveChanges(t, w.holder.batch, 0, PENDING);
    case _ =>
  }

  /** FAILED is absorbing. */
  lemma FailedForever(w: World, e: Event, b: nat)
    requires Inv(w) && Can(w, e) && Is(w.tables, b, FAILED)
    ensures Is(Do(w, e).tables, b, FAILED)
  {
    hide Inv, DoBuilder, DoHolder, CanBuilder, CanHolder, TablesOk, HolderOk, ReadyOk, BuilderOk, SourceOk;
    assert TablesOk(w.tables, w.nextBatch) && HolderOk(w) by { InvParts(w); }
    if CanBuilder(w, e) {
      BuilderStepChanges(w, e);
    } else if CanHolder(w, e) {
      HolderStepChanges(w, e);
    }
  }

  lemma InvParts(w: World)
    requires Inv(w)
    ensures TablesOk(w.tables, w.nextBatch) && ReadyOk(w) && BuilderOk(w) && HolderOk(w) && SourceOk(w)
  {
  }

  // ---------------------------------------------------------------- the builder

  lemma OnlyBuildingHolds(t: Tables, u: Tables, todo: seq<nat>)
    requires HolderChange(t, u) && OnlyBuilding(t, todo)
    ensures OnlyBuilding(u, todo)
  {
  }

  lemma HolderKeepsBuilder(w: World, e: Event)
    requires TablesOk(w.tables, w.nextBatch) && BuilderOk(w) && HolderOk(w) && CanHolder(w, e)
    ensures BuilderOk(DoHolder(w, e))
  {
    hide OnlyBuilding, TablesOk, HolderOk, DoHolder, CanHolder, HolderChange, Complete;
    HolderStepChanges(w, e);
    HolderDirectories(w, e);
    HolderFrame(w, e);
    var v := DoHolder(w, e);
    forall todo | OnlyBuilding(w.tables, todo)
      ensures OnlyBuilding(v.tables, todo)
    {
      OnlyBuildingHolds(w.tables, v.tables, todo);
    }
    forall b | InHand(w.tables, b)
      ensures InHand(v.tables, b)
    {
      HandHolds(w.tables, v.tables, b);
    }
  }

  lemma HandHolds(t: Tables, u: Tables, b: nat)
    requires HolderChange(t, u) && InHand(t, b)
    ensures InHand(u, b)
  {
  }

  /** A rebuild removes files of a FAILED batch only, so what a BUILDING or READY batch needs stays. */
  lemma HolderDirectories(w: World, e: Event)
    requires TablesOk(w.tables, w.nextBatch) && HolderOk(w) && CanHolder(w, e)
    ensures DoHolder(w, e).builder == w.builder && DoHolder(w, e).snapshot == w.snapshot
    ensures forall b: nat :: Is(DoHolder(w, e).tables, b, BUILDING) || Is(DoHolder(w, e).tables, b, READY) ==>
              SameFor(w, DoHolder(w, e), b)
  {
    hide TablesOk, HolderOk, DoHolder, CanHolder, HolderChange, SameFor, Is;
    HolderStepChanges(w, e);
    HolderFrame(w, e);
    var v := DoHolder(w, e);
    forall b: nat | Is(v.tables, b, BUILDING) || Is(v.tables, b, READY)
      ensures SameFor(w, v, b)
    {
      HolderSame(w, e, b);
    }
  }

  ghost predicate SameFor(w: World, v: World, b: nat) {
    && b in w.tables.batches && b in v.tables.batches && v.tables.batches[b] == w.tables.batches[b]
    && (forall hash: nat :: Complete(w.published, b, hash) ==> Complete(v.published, b, hash))
    && (forall hash: nat :: Complete(w.building, b, hash) ==> Complete(v.building, b, hash))
  }

  lemma HolderFrame(w: World, e: Event)
    requires CanHolder(w, e)
    ensures DoHolder(w, e).builder == w.builder && DoHolder(w, e).snapshot == w.snapshot
    ensures w.holder.Removing? || (DoHolder(w, e).published == w.published && DoHolder(w, e).building == w.building)
  {
    hide RemoveOne, PendingPrefix, FreshPrefix, ListsBatches;
  }

  /** No statement of the lock holder makes a batch BUILDING or READY. */
  lemma SameRow(t: Tables, u: Tables, b: nat)
    requires HolderChange(t, u) && (Is(u, b, BUILDING) || Is(u, b, READY))
    ensures b in t.batches && b in u.batches && u.batches[b] == t.batches[b]
  {
  }

  lemma HolderSame(w: World, e: Event, b: nat)
    requires TablesOk(w.tables, w.nextBatch) && HolderOk(w) && CanHolder(w, e)
    requires HolderChange(w.tables, DoHolder(w, e).tables)
    requires Is(DoHolder(w, e).tables, b, BUILDING) || Is(DoHolder(w, e).tables, b, READY)
    ensures SameFor(w, DoHolder(w, e), b)
  {
    hide TablesOk, CanHolder, DoHolder, HolderChange, Complete;
    HolderFrame(w, e);
    SameRow(w.tables, DoHolder(w, e).tables, b);
    if w.holder.Removing? {
      RemovesOnly(w, e);
    }
  }

  lemma RemovesOnly(w: World, e: Event)
    requires CanHolder(w, e) && w.holder.Removing?
    ensures DoHolder(w, e).tables == w.tables
    ensures forall b: nat, hash: nat ::
              b != w.holder.batch && Complete(w.published, b, hash) ==> Complete(DoHolder(w, e).published, b, hash)
    ensures forall b: nat, hash: nat ::
              b != w.holder.batch && Complete(w.building, b, hash) ==> Complete(DoHolder(w, e).building, b, hash)
  {
  }

  lemma HolderKeepsReady(w: World, e: Event)
    requires TablesOk(w.tables, w.nextBatch) && ReadyOk(w) && HolderOk(w) && CanHolder(w, e)
    ensures ReadyOk(DoHolder(w, e))
  {
    hide TablesOk, HolderOk, DoHolder, CanHolder, Complete;
    HolderDirectories(w, e);
    HolderStepChanges(w, e);
  }

  /** In every state of the builder that names a batch, it is in hand. */
  lemma SubjectInHand(w: World, e: Event)
    requires BuilderOk(w) && CanBuilder(w, e) && Subject(w) != 0
    ensures InHand(w.tables, Subject(w))
  {
    hide ListsBatches, ListsReady, Complete, InHand;
    match w.builder
    case Recovering(todo) => assert todo != [] ==> todo[0] in todo;
    case Recovered(_, todo) => assert todo[0] in todo;
    case Corrupted(todo) => assert todo[0] in todo;
    case Chosen(b) =>
    case Writing(b) => assert b in [b];
    case Checked(b, _) => assert b in [b];
    case Renamed(b, _) => assert b in [b];
    case Synced(b, _) => assert b in [b];
    case Aborting(b) => assert b in [b];
    case _ =>
  }

  /** The builder touches directories of its own batch only, and never of a READY one. */
  lemma BuilderDirectories(w: World, e: Event, b: nat, hash: nat)
    requires BuilderOk(w) && CanBuilder(w, e) && b != Subject(w) && Complete(w.published, b, hash)
    ensures Complete(DoBuilder(w, e).published, b, hash)
  {
    hide ListsBatches, ListsReady, Building, ResetBuilding, BuildFailed, Published, OnlyBuilding;
  }

  lemma BuilderKeepsReady(w: World, e: Event)
    requires TablesOk(w.tables, w.nextBatch) && ReadyOk(w) && BuilderOk(w) && CanBuilder(w, e)
    ensures ReadyOk(DoBuilder(w, e))
  {
    hide ListsBatches, ListsReady, OnlyBuilding, CanBuilder, DoBuilder, BuilderOk, Complete;
    var v := DoBuilder(w, e);
    BuilderStepChanges(w, e);
    forall b: nat | Is(v.tables, b, READY)
      ensures var s := v.tables.batches[b].segment;
              s.Some? && Complete(v.published, b, s.value)
    {
      if Is(w.tables, b, READY) {
        if b == Subject(w) {
          SubjectInHand(w, e);
          assert false;
        }
        BuilderDirectories(w, e, b, w.tables.batches[b].segment.value);
      } else {
        NewlyReady(w, e, b);
      }
    }
  }

  /** A batch becomes READY only by a publish, with the digest of its complete directory. */
  lemma NewlyReady(w: World, e: Event, b: nat)
    requires BuilderOk(w) && CanBuilder(w, e) && Is(DoBuilder(w, e).tables, b, READY) && !Is(w.tables, b, READY)
    ensures var v := DoBuilder(w, e);
            var s := v.tables.batches[b].segment;
            s.Some? && Complete(v.published, b, s.value)
  {
    hide ListsBatches, ListsReady, OnlyBuilding, RemoveOne, WriteOne, Building, ResetBuilding, BuildFailed;
    StillNotReady(w.tables, Subject(w), b);
  }

  /** Only a publish makes a batch READY. */
  lemma StillNotReady(t: Tables, b: nat, c: nat)
    requires !Is(t, c, READY)
    ensures !Is(Building(t, b).1, c, READY) && !Is(ResetBuilding(t, b).1, c, READY)
            && !Is(BuildFailed(t, b).1, c, READY)
  {
  }

  // ---------------------------------------------------------------- the builder keeps its own invariant

  lemma TailOnly(t: Tables, u: Tables, todo: seq<nat>)
    requires OnlyBuilding(t, todo) && todo != [] && BuilderChange(t, u, todo[0]) && !Is(u, todo[0], BUILDING)
    ensures OnlyBuilding(u, todo[1..])
  {
    var rest := todo[1..];
    assert todo == [todo[0]] + rest;
    forall b: nat | Is(u, b, BUILDING)
      ensures b in rest
    {
      assert b in t.batches && b != todo[0];
      assert Is(t, b, BUILDING);
    }
    forall b | b in rest
      ensures InHand(u, b)
    {
      var i :| 0 <= i < |rest| && rest[i] == b;
      assert todo[i + 1] == b && b in todo && todo[0] < todo[i + 1];
      assert InHand(t, b);
    }
  }

  lemma NoneLeft(t: Tables, u: Tables, b: nat)
    requires OnlyBuilding(t, [b]) && BuilderChange(t, u, b) && !Is(u, b, BUILDING)
    ensures OnlyBuilding(u, [])
  {
    assert [b][1..] == [];
    TailOnly(t, u, [b]);
  }

  lemma RecoveryKeeps(w: World, e: Event)
    requires BuilderOk(w) && CanBuilder(w, e) && (w.builder.Recovering? || w.builder.Recovered? || w.builder.Corrupted?)
    requires e.RecoverReset? || e.RecoverLoad? || e.RecoverPublish? || e.RecoverReject? || e.RecoverRemove?
             || e.RecoverFail?
    ensures BuilderOk(DoBuilder(w, e))
  {
    hide OnlyBuilding, BuilderChange;
    var v := DoBuilder(w, e);
    var b := w.builder.todo[0];
    BuilderStepChanges(w, e);
    if v.builder.Recovering? {
      TailOnly(w.tables, v.tables, w.builder.todo);
    }
  }

  lemma BuildKeepsBuilder(w: World, e: Event)
    requires BuilderOk(w) && CanBuilder(w, e)
    requires e.CleanBuilding? || e.StartRecovery? || e.Choose? || e.MarkBuilding? || e.WriteFile? || e.ClearFile?
             || e.Check?
             || e.Rename? || e.Sync? || e.Abort? || e.AbortRemove? || e.AbortMark? || e.Publish?
    ensures BuilderOk(DoBuilder(w, e))
  {
    hide BuilderChange;
    BuilderStepChanges(w, e);
    var v := DoBuilder(w, e);
    if e.Publish? && v.builder.Recovering? {
      NoneLeft(w.tables, v.tables, w.builder.batch);
    }
  }

  lemma RefreshKeeps(w: World, e: Event)
    requires BuilderOk(w) && CanBuilder(w, e) && (e.ListReady? || e.LoadReady? || e.Swap?)
    ensures BuilderOk(DoBuilder(w, e))
  {
    hide OnlyBuilding, Complete, ListsReady;
  }

  lemma BuilderKeepsBuilder(w: World, e: Event)
    requires BuilderOk(w) && CanBuilder(w, e)
    ensures BuilderOk(DoBuilder(w, e))
  {
    hide BuilderOk, DoBuilder, ListsBatches, ListsReady;
    if e.ListReady? || e.LoadReady? || e.Swap? {
      RefreshKeeps(w, e);
    } else if e.RecoverReset? || e.RecoverLoad? || e.RecoverPublish? || e.RecoverReject? || e.RecoverRemove?
              || e.RecoverFail?
    {
      RecoveryKeeps(w, e);
    } else {
      BuildKeepsBuilder(w, e);
    }
  }

  // ---------------------------------------------------------------- the lock holder

  lemma RestHolds(rest: seq<nat>, t: Tables, u: Tables, source: seq<nat>, b: nat)
    requires BuilderChange(t, u, b)
    ensures FreshRest(rest, t, source) ==> FreshRest(rest, u, source)
    ensures PendingRest(rest, t) ==> PendingRest(rest, u)
  {
  }

  lemma OwnershipHolds(t: Tables, u: Tables, b: nat, c: nat, ids: seq<nat>, parsed: set<nat>)
    requires BuilderChange(t, u, b)
    ensures BelongTo(ids, t, c) ==> BelongTo(ids, u, c)
    ensures Contribute(t, c, parsed) ==> Contribute(u, c, parsed)
    ensures Is(t, c, PARSING) ==> Is(u, c, PARSING)
    ensures Is(t, c, FAILED) ==> Is(u, c, FAILED)
    ensures c in t.batches ==> c in u.batches
  {
  }

  lemma BuilderLeavesHolder(w: World, e: Event)
    requires CanBuilder(w, e)
    ensures DoBuilder(w, e).holder == w.holder && DoBuilder(w, e).source == w.source
            && DoBuilder(w, e).nextBatch == w.nextBatch
  {
    hide ListsBatches, ListsReady, Building, ResetBuilding, BuildFailed, Published, RemoveOne, WriteOne, Complete;
  }

  lemma BuilderKeepsHolder(w: World, e: Event)
    requires HolderOk(w) && CanBuilder(w, e)
    ensures HolderOk(DoBuilder(w, e))
  {
    hide CanBuilder, DoBuilder, BuilderChange, FreshRest, PendingRest, BelongTo, Contribute, Is, Ascending;
    BuilderStepChanges(w, e);
    BuilderLeavesHolder(w, e);
    var v, b := DoBuilder(w, e), Subject(w);
    forall rest
      ensures FreshRest(rest, w.tables, w.source) ==> FreshRest(rest, v.tables, v.source)
    {
      RestHolds(rest, w.tables, v.tables, w.source, b);
    }
    forall rest
      ensures PendingRest(rest, w.tables) ==> PendingRest(rest, v.tables)
    {
      RestHolds(rest, w.tables, v.tables, w.source, b);
    }
    forall c, ids
      ensures BelongTo(ids, w.tables, c) ==> BelongTo(ids, v.tables, c)
    {
      OwnershipHolds(w.tables, v.tables, b, c, ids, {});
    }
    forall c, parsed
      ensures Contribute(w.tables, c, parsed) ==> Contribute(v.tables, c, parsed)
    {
      OwnershipHolds(w.tables, v.tables, b, c, [], parsed);
    }
    forall c
      ensures Is(w.tables, c, PARSING) ==> Is(v.tables, c, PARSING)
      ensures Is(w.tables, c, FAILED) ==> Is(v.tables, c, FAILED)
      ensures c in w.tables.batches ==> c in v.tables.batches
    {
      OwnershipHolds(w.tables, v.tables, b, c, [], {});
    }
  }

  lemma SelectKeeps(w: World, e: Event)
    requires HolderOk(w) && SourceOk(w) && CanHolder(w, e) && e.Select?
    ensures HolderOk(DoHolder(w, e))
  {
    var ids := e.ids;
    if exists a <- w.tables.archives :: w.tables.archives[a].state == PENDING {
      assert ids[0] in ids;
    } else {
      assert ids[0] in ids;
      forall a | a in ids
        ensures NotObserved(w.tables, a)
      {
        var i :| 0 <= i < |ids| && ids[i] == a;
      }
      forall e <- w.source, i | 0 <= i < |ids| && NotObserved(w.tables, e) && e <= ids[i]
        ensures e in ids
      {
        assert ids[i] <= ids[|ids| - 1];
      }
    }
  }

  lemma AttachKeepsHolder(w: World)
    requires HolderOk(w) && w.holder.Attaching? && w.holder.done < |w.holder.ids|
    ensures HolderOk(DoHolder(w, AttachOne))
  {
    hide FreshRest, PendingRest, BelongTo;
    var h, v := w.holder, DoHolder(w, AttachOne);
    NextOwned(h.ids, h.done, w.tables, h.batch);
    assert h.ids[h.done..][1..] == h.ids[h.done + 1..];
    if h.isNew {
      FreshNext(h.ids[h.done..], w.tables, w.source, h.batch);
    } else {
      PendingNext(h.ids, h.done, w.tables, h.batch);
    }
  }

  lemma NextOwned(ids: seq<nat>, done: nat, t: Tables, b: nat)
    requires done < |ids| && BelongTo(ids[..done], t, b)
    ensures BelongTo(ids[..done + 1], Attached(t, b, ids[done]), b)
  {
    assert ids[..done + 1] == ids[..done] + [ids[done]];
  }

  lemma PendingNext(ids: seq<nat>, done: nat, t: Tables, b: nat)
    requires done < |ids| && Ascending(ids) && PendingRest(ids[done..], t)
    ensures PendingRest(ids[done + 1..], Attached(t, b, ids[done]))
  {
    forall x | x in ids[done + 1..]
      ensures x != ids[done] && x in ids[done..]
    {
      var i :| 0 <= i < |ids[done + 1..]| && ids[done + 1..][i] == x;
      assert ids[done + 1 + i] == x && ids[done..][i + 1] == x;
    }
  }

  /** Attaching the first of the next eligible archives leaves the next ones. */
  lemma FreshNext(rest: seq<nat>, t: Tables, source: seq<nat>, b: nat)
    requires rest != [] && FreshRest(rest, t, source)
    ensures FreshRest(rest[1..], Attached(t, b, rest[0]), source)
  {
    var next, u := rest[1..], Attached(t, b, rest[0]);
    forall x | x in next
      ensures x in source && NotObserved(u, x)
    {
      var i :| 0 <= i < |next| && next[i] == x;
      assert rest[i + 1] == x && x in rest && rest[0] < rest[i + 1];
    }
    forall e <- source, i | 0 <= i < |next| && NotObserved(u, e) && e <= next[i]
      ensures e in next
    {
      assert next[i] == rest[i + 1];
      forall a <- t.archives
        ensures a < e
      {
        assert a in u.archives;
      }
      assert NotObserved(t, e);
      assert rest[0] in u.archives;
      assert e in rest && e != rest[0];
    }
  }

  lemma MarkKeepsHolder(w: World, success: bool)
    requires HolderOk(w) && w.holder.Marking? && w.holder.done < |w.holder.ids|
    ensures HolderOk(DoHolder(w, MarkOne(success)))
  {
    var h, v := w.holder, DoHolder(w, MarkOne(success));
    var a := h.ids[h.done];
    assert a in h.ids;
    assert h.ids[..h.done + 1] == h.ids[..h.done] + [a];
    forall x | x in h.ids[..h.done]
      ensures x != a
    {
      var i :| 0 <= i < h.done && h.ids[..h.done][i] == x;
      assert h.ids[i] < h.ids[h.done];
    }
  }

  lemma ScanKeepsHolder(w: World, e: Event)
    requires HolderOk(w) && CanHolder(w, e) && (e.LockScan? || e.FailArchives? || e.FailBatch?)
    ensures HolderOk(DoHolder(w, e))
  {
    hide PendingPrefix, FreshPrefix;
    if e.FailBatch? {
      var todo, v := w.holder.todo, DoHolder(w, e);
      forall b | b in todo[1..]
        ensures Is(v.tables, b, PARSING)
      {
        var i :| 0 <= i < |todo[1..]| && todo[1..][i] == b;
        assert todo[i + 1] == b && b in todo && todo[0] < todo[i + 1];
      }
    }
  }

  lemma HolderKeepsHolder(w: World, e: Event)
    requires TablesOk(w.tables, w.nextBatch) && HolderOk(w) && SourceOk(w) && CanHolder(w, e)
    ensures HolderOk(DoHolder(w, e))
  {
    hide HolderOk, DoHolder, SourceOk, PendingPrefix, FreshPrefix, ListsBatches, TablesOk;
    match e
    case LockScan(_) => ScanKeepsHolder(w, e);
    case FailArchives => ScanKeepsHolder(w, e);
    case FailBatch => ScanKeepsHolder(w, e);
    case Select(_) => SelectKeeps(w, e);
    case CreateBatch => CreateKeepsHolder(w);
    case AttachOne =>
      if w.holder.done < |w.holder.ids| {
        AttachKeepsHolder(w);
      } else {
        AllAttached(w);
      }
    case MarkOne(success) => MarkKeepsHolder(w, success);
    case _ => SimpleKeepsHolder(w, e);
  }

  lemma CreateKeepsHolder(w: World)
    requires TablesOk(w.tables, w.nextBatch) && HolderOk(w) && w.holder.Selected?
    ensures HolderOk(DoHolder(w, CreateBatch))
  {
    assert w.holder.ids[0..] == w.holder.ids && w.holder.ids[..0] == [];
  }

  lemma AllAttached(w: World)
    requires HolderOk(w) && w.holder.Attaching? && w.holder.done >= |w.holder.ids|
    ensures HolderOk(DoHolder(w, AttachOne))
  {
    assert w.holder.ids[..w.holder.done] == w.holder.ids;
  }

  lemma SimpleKeepsHolder(w: World, e: Event)
    requires TablesOk(w.tables, w.nextBatch) && HolderOk(w) && CanHolder(w, e)
    requires e.FinishScan? || e.LockRebuild? || e.RebuildBatchRow? || e.RebuildArchiveRows? || e.RebuildRemove?
             || e.Unlock? || e.ArtifactFails? || e.FailOne? || e.FailScan?
    ensures HolderOk(DoHolder(w, e))
  {
    hide RemoveOne, PendingPrefix, FreshPrefix;
  }

  // ---------------------------------------------------------------- the source

  lemma SourceHolds(w: World, v: World)
    requires SourceOk(w) && v.source == w.source && v.tables.archives.Keys == w.tables.archives.Keys
    ensures SourceOk(v)
  {
    forall e <- v.source, a <- v.tables.archives | e <= a
      ensures e in v.tables.archives
    {
      assert a in w.tables.archives;
    }
  }

  lemma BuilderKeepsSource(w: World, e: Event)
    requires SourceOk(w) && CanBuilder(w, e)
    ensures SourceOk(DoBuilder(w, e))
  {
    hide SourceOk, CanBuilder, DoBuilder;
    BuilderStepChanges(w, e);
    BuilderLeavesHolder(w, e);
    SourceHolds(w, DoBuilder(w, e));
  }

  /** Attaching the next eligible archive leaves none below it unobserved. */
  lemma AttachKeepsSource(w: World)
    requires SourceOk(w) && HolderOk(w) && w.holder.Attaching? && w.holder.done < |w.holder.ids|
    ensures SourceOk(DoHolder(w, AttachOne))
  {
    NextToAttach(w);
    var v := DoHolder(w, AttachOne);
    var x := w.holder.ids[w.holder.done];
    var rest := w.holder.ids[w.holder.done..];
    assert v.tables.archives.Keys == w.tables.archives.Keys + {x};
    forall e <- v.source, a <- v.tables.archives | e <= a
      ensures e in v.tables.archives
    {
      if a == x && w.holder.isNew && e !in w.tables.archives {
        assert NotObserved(w.tables, e);
        assert e <= rest[0] && e in rest;
        var i :| 0 <= i < |rest| && rest[i] == e;
      }
    }
  }

  lemma HolderKeepsSource(w: World, e: Event)
    requires SourceOk(w) && HolderOk(w) && CanHolder(w, e)
    ensures SourceOk(DoHolder(w, e))
  {
    if e.AttachOne? && w.holder.done < |w.holder.ids| {
      AttachKeepsSource(w);
    } else {
      hide SourceOk, HolderOk, PendingPrefix, FreshPrefix, ListsBatches, RemoveOne;
      SourceHolds(w, DoHolder(w, e));
    }
  }

  lemma AppendKeepsSource(w: World, id: nat)
    requires SourceOk(w) && CanOutside(w, AppendSource(id))
    ensures SourceOk(DoOutside(w, AppendSource(id)))
  {
    var v := DoOutside(w, AppendSource(id));
    forall i, j | 0 <= i < j < |v.source|
      ensures v.source[i] < v.source[j]
    {
      assert i < |w.source| && v.source[i] == w.source[i] && w.source[i] in w.source;
    }
  }

  /** A new source id is above what a scan has already selected. */
  lemma AppendKeepsRest(rest: seq<nat>, t: Tables, source: seq<nat>, id: nat)
    requires FreshRest(rest, t, source) && forall s <- source :: s < id
    ensures FreshRest(rest, t, source + [id])
  {
    forall e <- source + [id], i | 0 <= i < |rest| && NotObserved(t, e) && e <= rest[i]
      ensures e in rest
    {
      assert rest[i] in rest && rest[i] in source;
      assert e in source;
    }
  }

  lemma AppendKeeps(w: World, id: nat)
    requires Inv(w) && CanOutside(w, AppendSource(id))
    ensures HolderOk(DoOutside(w, AppendSource(id))) && SourceOk(DoOutside(w, AppendSource(id)))
  {
    hide TablesOk, ReadyOk, BuilderOk, Contribute, BelongTo, SourceOk, FreshRest, PendingRest, Ascending;
    AppendKeepsSource(w, id);
    forall rest | FreshRest(rest, w.tables, w.source)
      ensures FreshRest(rest, w.tables, w.source + [id])
    {
      AppendKeepsRest(rest, w.tables, w.source, id);
    }
  }

  lemma OutsideKeeps(w: World, e: Event)
    requires Inv(w) && CanOutside(w, e)
    ensures Inv(DoOutside(w, e))
  {
    hide TablesOk, Contribute, BelongTo, OnlyBuilding, Complete;
    if e.AppendSource? {
      AppendKeeps(w, e.id);
    }
  }

  // ---------------------------------------------------------------- every step, every run

  /** Every step keeps the invariants. */
  lemma StepInv(w: World, e: Event)
    requires Inv(w) && Can(w, e)
    ensures Inv(Do(w, e))
  {
    hide TablesOk, ReadyOk, BuilderOk, HolderOk, SourceOk, CanBuilder, CanHolder, CanOutside, DoBuilder, DoHolder,
         DoOutside;
    if CanBuilder(w, e) {
      BuilderKeepsTables(w, e);
      BuilderKeepsReady(w, e);
      BuilderKeepsBuilder(w, e);
      BuilderKeepsHolder(w, e);
      BuilderKeepsSource(w, e);
    } else if CanHolder(w, e) {
      HolderKeepsTables(w, e);
      HolderKeepsReady(w, e);
      HolderKeepsBuilder(w, e);
      HolderKeepsHolder(w, e);
      HolderKeepsSource(w, e);
    } else {
      OutsideKeeps(w, e);
    }
  }

  /** A run from the empty database: any interleaving of builder, lock holder, source and crashes. */
  ghost predicate IsRun(ws: seq<World>, es: seq<Event>) {
    && |ws| == |es| + 1 && ws[0] == Empty()
    && forall k :: 0 <= k < |es| ==> Can(ws[k], es[k]) && ws[k + 1] == Do(ws[k], es[k])
  }

  lemma RunStart(ws: seq<World>, es: seq<Event>)
    requires IsRun(ws, es)
    ensures |ws| == |es| + 1 && ws[0] == Empty()
  {
    hide Can, Do;
  }

  lemma RunStep(ws: seq<World>, es: seq<Event>, k: nat)
    requires IsRun(ws, es) && 0 < k < |ws|
    ensures k - 1 < |es| && Can(ws[k - 1], es[k - 1]) && ws[k] == Do(ws[k - 1], es[k - 1])
  {
    hide Can, Do;
  }

  lemma {:induction false} RunInv(ws: seq<World>, es: seq<Event>, k: nat)
    requires IsRun(ws, es) && k < |ws|
    ensures Inv(ws[k])
  {
    hide *;
    if k == 0 {
      RunStart(ws, es);
      EmptyInv();
    } else {
      RunInv(ws, es, k - 1);
      RunStep(ws, es, k);
      StepInv(ws[k - 1], es[k - 1]);
    }
  }

  lemma EmptyInv()
    ensures Inv(Empty())
  {
  }

  // ---------------------------------------------------------------- what holds in every reachable state

  /** Every READY batch has a complete Segment directory with the recorded digest. */
  lemma ReadyIsLoadable(ws: seq<World>, es: seq<Event>, k: nat, b: nat)
    requires IsRun(ws, es) && k < |ws| && Is(ws[k].tables, b, READY)
    ensures ws[k].tables.batches[b].segment.Some?
    ensures Complete(ws[k].published, b, ws[k].tables.batches[b].segment.value)
  {
    hide IsRun, TablesOk, BuilderOk, HolderOk, SourceOk;
    RunInv(ws, es, k);
  }

  /** No archive of a READY batch is left PARSED. */
  lemma ReadyArchivesIndexed(ws: seq<World>, es: seq<Event>, k: nat, a: nat)
    requires IsRun(ws, es) && k < |ws| && a in ws[k].tables.archives
    requires Is(ws[k].tables, ws[k].tables.archives[a].batch, READY)
    ensures ws[k].tables.archives[a].state != ARCHIVE_PARSED
  {
    hide IsRun, ReadyOk, BuilderOk, HolderOk, SourceOk;
    RunInv(ws, es, k);
  }

  /** A READY batch holds the documents of exactly its INDEXED archives, and there is at least one. */
  lemma ReadyHoldsExactly(ws: seq<World>, es: seq<Event>, k: nat, b: nat, a: nat)
    requires IsRun(ws, es) && k < |ws| && Is(ws[k].tables, b, READY)
    ensures var t := ws[k].tables;
            && t.batches[b].contributors != {}
            && (a in t.batches[b].contributors
                <==> a in t.archives && t.archives[a].batch == b && t.archives[a].state == INDEXED)
  {
    hide IsRun, ReadyOk, BuilderOk, HolderOk, SourceOk;
    RunInv(ws, es, k);
    var t := ws[k].tables;
    assert a in t.batches[b].contributors <==> Holds(t, b, a);
  }

  lemma LiveAttached(t: Tables, next: nat, b: nat)
    requires TablesOk(t, next) && Live(t, b)
    ensures exists a <- t.archives :: t.archives[a].batch == b
  {
    var a :| a in t.batches[b].contributors;
    assert Holds(t, b, a);
  }

  /** In every reachable state a BUILDING batch has an attached archive, so publishing it changes its row. */
  lemma PublishNeverRefused(ws: seq<World>, es: seq<Event>, k: nat, b: nat, hash: nat)
    requires IsRun(ws, es) && k < |ws| && Is(ws[k].tables, b, BUILDING)
    ensures Published(ws[k].tables, b, hash).0 && Is(Published(ws[k].tables, b, hash).1, b, READY)
  {
    hide IsRun, TablesOk, ReadyOk, BuilderOk, HolderOk, SourceOk;
    RunInv(ws, es, k);
    LiveAttached(ws[k].tables, ws[k].nextBatch, b);
  }

  /** Every reachable state has the tables that recovery needs to reach its end. */
  lemma ReachableTables(ws: seq<World>, es: seq<Event>, k: nat)
    requires IsRun(ws, es) && k < |ws|
    ensures TablesOk(ws[k].tables, ws[k].nextBatch)
  {
    hide IsRun, TablesOk, ReadyOk, BuilderOk, HolderOk, SourceOk;
    RunInv(ws, es, k);
  }

  /** In every reachable state each Segment that a refresh lists can be loaded. */
  lemma ReadyListLoads(ws: seq<World>, es: seq<Event>, k: nat, ready: seq<(nat, nat)>)
    requires IsRun(ws, es) && k < |ws| && ListsReady(ready, ws[k].tables)
    ensures forall p <- ready :: Complete(ws[k].published, p.0, p.1)
  {
    hide IsRun, Complete;
    forall p <- ready
      ensures Complete(ws[k].published, p.0, p.1)
    {
      ReadyIsLoadable(ws, es, k, p.0);
    }
  }

  /** No archive contributes documents to two live batches. */
  lemma OneBatchPerArchive(ws: seq<World>, es: seq<Event>, k: nat, b: nat, c: nat, a: nat)
    requires IsRun(ws, es) && k < |ws| && Live(ws[k].tables, b) && Live(ws[k].tables, c)
    requires a in ws[k].tables.batches[b].contributors && a in ws[k].tables.batches[c].contributors
    ensures b == c
  {
    hide IsRun, ReadyOk, BuilderOk, HolderOk, SourceOk;
    RunInv(ws, es, k);
    var t := ws[k].tables;
    assert Contribute(t, b, t.batches[b].contributors) && Contribute(t, c, t.batches[c].contributors);
  }

  /** No eligible archive up to the largest observed id is skipped. */
  lemma NothingSkipped(ws: seq<World>, es: seq<Event>, k: nat, e: nat, observed: nat)
    requires IsRun(ws, es) && k < |ws| && e in ws[k].source && observed in ws[k].tables.archives && e <= observed
    ensures e in ws[k].tables.archives
  {
    hide IsRun, TablesOk, ReadyOk, BuilderOk, HolderOk;
    RunInv(ws, es, k);
  }

  /** When the recovery loop ends, no batch is BUILDING. */
  lemma RecoveryLeavesNoBuilding(ws: seq<World>, es: seq<Event>, k: nat, b: nat)
    requires IsRun(ws, es) && k < |ws| && ws[k].builder == Recovering([])
    ensures !Is(ws[k].tables, b, BUILDING)
  {
    hide IsRun, TablesOk, ReadyOk, HolderOk, SourceOk;
    RunInv(ws, es, k);
    assert OnlyBuilding(ws[k].tables, []);
  }

  lemma {:induction false} FailedStaysFailed(ws: seq<World>, es: seq<Event>, j: nat, k: nat, b: nat)
    requires IsRun(ws, es) && j <= k < |ws| && Is(ws[j].tables, b, FAILED)
    ensures Is(ws[k].tables, b, FAILED)
    decreases k
  {
    hide *;
    if j < k {
      FailedStaysFailed(ws, es, j, k - 1, b);
      RunInv(ws, es, k - 1);
      RunStep(ws, es, k);
      FailedForever(ws[k - 1], es[k - 1], b);
    }
  }
}
