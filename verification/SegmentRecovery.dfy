// SegmentManager and IncrementalIndexer as they run without interference: their loops over batches
// and archives.

module SegmentRecovery {
  import opened Common
  import opened IndexTables
  import opened IndexLifecycle
  import opened IndexSafety

  // ---------------------------------------------------------------- recovery of BUILDING batches

  /** What recovery makes of one BUILDING batch: back to PARSED without a directory, READY with the
      digest of a complete one, FAILED and removed with one that is damaged or cannot be read. */
  ghost predicate RecoveredTo(before: Tables, after: Tables, dirs: Directories, left: Directories,
                              unreadable: set<nat>, b: nat)
    requires b in before.batches
  {
    && b in after.batches
    && if b !in dirs then Is(after, b, PARSED) && b !in left
       else if dirs[b].files == ALL_FILES && b !in unreadable then
         Is(after, b, READY) && after.batches[b].segment == Some(dirs[b].hash) && b in left && left[b] == dirs[b]
       else Is(after, b, FAILED) && b !in left
  }

  /** Nothing about a batch has changed. */
  ghost predicate Untouched(before: Tables, after: Tables, dirs: Directories, left: Directories, b: nat) {
    && (b in before.batches <==> b in after.batches) && (b in before.batches ==> after.batches[b] == before.batches[b])
    && (b in dirs <==> b in left) && (b in dirs ==> left[b] == dirs[b])
  }

  class SegmentManager {
    var tables: Tables
    var published: Directories
    var snapshot: map<nat, nat>

    constructor (tables: Tables, published: Directories)
      ensures this.tables == tables && this.published == published && snapshot == map[]
    {
      this.tables, this.published, snapshot := tables, published, map[];
    }

    /** One round of recoverBuildingBatches; false is the exception of an update that changed no row. */
    method RecoverOne(b: nat, unreadable: set<nat>) returns (changed: bool)
      requires Is(tables, b, BUILDING)
      modifies this`tables, this`published
      ensures changed <==> (b in old(published) && old(published)[b].files == ALL_FILES && b !in unreadable
                            ==> HasArchive(old(tables), b))
      ensures !changed ==> tables == old(tables) && published == old(published)
      ensures changed ==> RecoveredTo(old(tables), tables, old(published), published, unreadable, b)
      ensures changed ==> OnlyTouched(old(tables), tables, old(published), published, b)
    {
      hide Published, ResetBuilding, BuildFailed;
      Effects(tables, b, if b in published then published[b].hash else 0);
      if b !in published {
        var (c, t) := ResetBuilding(tables, b);
        changed, tables := c, t;
      } else if published[b].files == ALL_FILES && b !in unreadable {
        var (c, t) := Published(tables, b, published[b].hash);
        changed, tables := c, t;
      } else {
        published := published - {b};
        var (c, t) := BuildFailed(tables, b);
        changed, tables := c, t;
      }
    }

    /** recoverBuildingBatches, with what listBuildingBatches returned. Tables that keep the invariant of the
        life cycle give every BUILDING batch an archive, so no update is refused: the loop reaches its end. */
    method RecoverBuildingBatches(todo: seq<nat>, unreadable: set<nat>, ghost next: nat)
      requires TablesOk(tables, next) && ListsBatches(todo, tables, BUILDING)
      modifies this`tables, this`published
      ensures forall b: nat :: !Is(tables, b, BUILDING)
      ensures forall b <- todo ::
                && b in old(tables).batches
                && RecoveredTo(old(tables), tables, old(published), published, unreadable, b)
      ensures forall b: nat :: b !in todo ==> Untouched(old(tables), tables, old(published), published, b)
    {
      hide RecoveredTo, Untouched, OnlyTouched, HasArchive, TablesOk;
      ghost var t0, d0 := tables, published;
      NothingYet(t0, d0);
      var i := 0;
      while i < |todo|
        invariant i <= |todo| && SameArchives(t0, tables)
        invariant forall k :: 0 <= k < i ==>
                    && todo[k] in t0.batches
                    && RecoveredTo(t0, tables, d0, published, unreadable, todo[k])
        invariant forall b: nat :: b !in todo[..i] ==> Untouched(t0, tables, d0, published, b)
      {
        var b := todo[i];
        assert b in todo && b !in todo[..i];
        assert todo[..i + 1] == todo[..i] + [b];
        ghost var t1, d1 := tables, published;
        StillBuilding(t0, t1, d0, d1, next, b);
        var changed := RecoverOne(b, unreadable);
        assert changed;
        forall c: nat | c != b
          ensures c in t0.batches && RecoveredTo(t0, t1, d0, d1, unreadable, c)
                  ==> RecoveredTo(t0, tables, d0, published, unreadable, c)
          ensures Untouched(t0, t1, d0, d1, c) ==> Untouched(t0, tables, d0, published, c)
        {
          Compose(t0, t1, tables, d0, d1, published, unreadable, b, c);
        }
        OneRecovered(t0, t1, tables, d0, d1, published, unreadable, b);
        i := i + 1;
      }
      assert todo[..i] == todo;
      forall b: nat
        ensures !Is(tables, b, BUILDING)
      {
        if b in todo {
          var k :| 0 <= k < |todo| && todo[k] == b;
          RecoveredNotBuilding(t0, tables, d0, published, unreadable, todo[k]);
        } else {
          UntouchedSame(t0, tables, d0, published, b);
        }
      }
    }

    /** refreshSnapshot: all READY Segments are loaded with their recorded digest, or the snapshot stays. */
    method RefreshSnapshot(ready: seq<(nat, nat)>, unreadable: set<nat>) returns (ok: bool)
      requires ListsReady(ready, tables)
      modifies this`snapshot
      ensures ok <==> forall p <- ready :: Complete(published, p.0, p.1) && p.0 !in unreadable
      ensures ok ==> forall b: nat :: b in snapshot <==> Is(tables, b, READY)
      ensures ok ==> forall b <- snapshot :: b in tables.batches && tables.batches[b].segment == Some(snapshot[b])
      ensures !ok ==> snapshot == old(snapshot)
    {
      var segments: map<nat, nat> := map[];
      var i := 0;
      while i < |ready|
        invariant i <= |ready|
        invariant forall k :: 0 <= k < i ==>
                    Complete(published, ready[k].0, ready[k].1) && ready[k].0 !in unreadable && ready[k].0 in segments
        invariant forall b <- segments :: (b, segments[b]) in ready
      {
        hide ListsReady;
        var b, hash := ready[i].0, ready[i].1;
        if b !in published || published[b] != SegmentDir(hash, ALL_FILES) || b in unreadable {
          assert ready[i] in ready;
          return false;
        }
        assert (b, hash) == ready[i];
        segments := segments[b := hash];
        i := i + 1;
      }
      snapshot := segments;
      AllReady(ready, tables, segments);
      ok := true;
    }
  }

  lemma AllReady(ready: seq<(nat, nat)>, t: Tables, segments: map<nat, nat>)
    requires ListsReady(ready, t)
    requires forall k :: 0 <= k < |ready| ==> ready[k].0 in segments
    requires forall b <- segments :: (b, segments[b]) in ready
    ensures forall b: nat :: b in segments <==> Is(t, b, READY)
    ensures forall b <- segments :: b in t.batches && t.batches[b].segment == Some(segments[b])
  {
    forall b: nat | Is(t, b, READY)
      ensures b in segments
    {
      var p :| p in ready && p.0 == b;
      var k :| 0 <= k < |ready| && ready[k] == p;
    }
  }

  /** What the JOIN of publishBatchReady asks for. */
  ghost predicate HasArchive(t: Tables, b: nat) {
    exists a <- t.archives :: t.archives[a].batch == b
  }

  ghost predicate SameArchives(t: Tables, u: Tables) {
    u.archives.Keys == t.archives.Keys && forall a <- t.archives :: u.archives[a].batch == t.archives[a].batch
  }

  ghost predicate OnlyTouched(t: Tables, u: Tables, dirs: Directories, left: Directories, b: nat) {
    SameArchives(t, u) && forall c: nat :: c != b ==> Untouched(t, u, dirs, left, c)
  }

  lemma NothingYet(t: Tables, dirs: Directories)
    ensures forall b: nat :: Untouched(t, t, dirs, dirs, b)
  {
  }

  lemma StillBuilding(t0: Tables, t1: Tables, d0: Directories, d1: Directories, next: nat, b: nat)
    requires TablesOk(t0, next) && Is(t0, b, BUILDING) && Untouched(t0, t1, d0, d1, b) && SameArchives(t0, t1)
    ensures Is(t1, b, BUILDING) && HasArchive(t1, b)
  {
    LiveAttached(t0, next, b);
    hide TablesOk;
    var a :| a in t0.archives && t0.archives[a].batch == b;
    assert t1.archives[a].batch == b;
  }

  lemma Compose(t0: Tables, t1: Tables, t2: Tables, d0: Directories, d1: Directories, d2: Directories,
                unreadable: set<nat>, b: nat, c: nat)
    requires OnlyTouched(t1, t2, d1, d2, b) && c != b
    ensures c in t0.batches && RecoveredTo(t0, t1, d0, d1, unreadable, c) ==> RecoveredTo(t0, t2, d0, d2, unreadable, c)
    ensures Untouched(t0, t1, d0, d1, c) ==> Untouched(t0, t2, d0, d2, c)
  {
    assert Untouched(t1, t2, d1, d2, c);
  }

  lemma OneRecovered(t0: Tables, t1: Tables, t2: Tables, d0: Directories, d1: Directories, d2: Directories,
                     unreadable: set<nat>, b: nat)
    requires Untouched(t0, t1, d0, d1, b) && SameArchives(t0, t1) && OnlyTouched(t1, t2, d1, d2, b)
    requires b in t1.batches && RecoveredTo(t1, t2, d1, d2, unreadable, b)
    ensures b in t0.batches && RecoveredTo(t0, t2, d0, d2, unreadable, b) && SameArchives(t0, t2)
  {
  }

  lemma RecoveredNotBuilding(t: Tables, u: Tables, dirs: Directories, left: Directories, unreadable: set<nat>, b: nat)
    requires b in t.batches && RecoveredTo(t, u, dirs, left, unreadable, b)
    ensures !Is(u, b, BUILDING)
  {
  }

  lemma UntouchedSame(t: Tables, u: Tables, dirs: Directories, left: Directories, b: nat)
    requires Untouched(t, u, dirs, left, b)
    ensures Is(u, b, BUILDING) <==> Is(t, b, BUILDING)
  {
  }

  /** The guarded updates of one BUILDING batch. */
  lemma Effects(t: Tables, b: nat, hash: nat)
    requires Is(t, b, BUILDING)
    ensures ResetBuilding(t, b).0 && OneRow(t, ResetBuilding(t, b).1, b) && Is(ResetBuilding(t, b).1, b, PARSED)
    ensures BuildFailed(t, b).0 && OneRow(t, BuildFailed(t, b).1, b) && Is(BuildFailed(t, b).1, b, FAILED)
    ensures Published(t, b, hash).0 <==> HasArchive(t, b)
    ensures !Published(t, b, hash).0 ==> Published(t, b, hash).1 == t
    ensures Published(t, b, hash).0 ==>
              && OneRow(t, Published(t, b, hash).1, b) && Is(Published(t, b, hash).1, b, READY)
              && Published(t, b, hash).1.batches[b].segment == Some(hash)
  {
  }

  /** Only one row of index_batch differs, and archives keep their batch. */
  ghost predicate OneRow(t: Tables, u: Tables, b: nat) {
    && u.batches.Keys == t.batches.Keys && (forall c <- t.batches :: c != b ==> u.batches[c] == t.batches[c])
    && u.archives.Keys == t.archives.Keys && forall a <- t.archives :: u.archives[a].batch == t.archives[a].batch
  }

  // ---------------------------------------------------------------- interrupted batches

  /** recoverInterruptedBatches: every PARSING batch and all its archives become FAILED, nothing else changes. */
  method RecoverInterrupted(t: Tables, ids: seq<nat>) returns (u: Tables)
    requires ListsBatches(ids, t, PARSING)
    ensures forall b: nat :: !Is(u, b, PARSING)
    ensures u.batches.Keys == t.batches.Keys && u.archives.Keys == t.archives.Keys
    ensures forall b <- t.batches :: u.batches[b] == if b in ids then t.batches[b].(state := FAILED) else t.batches[b]
    ensures forall a <- t.archives ::
              u.archives[a] == if t.archives[a].batch in ids then t.archives[a].(state := ARCHIVE_FAILED)
                               else t.archives[a]
  {
    u := t;
    var i := 0;
    while i < |ids|
      invariant i <= |ids| && u.batches.Keys == t.batches.Keys && u.archives.Keys == t.archives.Keys
      invariant forall b <- t.batches ::
                  u.batches[b] == if b in ids[..i] then t.batches[b].(state := FAILED) else t.batches[b]
      invariant forall a <- t.archives ::
                  u.archives[a] == if t.archives[a].batch in ids[..i] then t.archives[a].(state := ARCHIVE_FAILED)
                                   else t.archives[a]
    {
      assert ids[i] in ids;
      assert ids[..i + 1] == ids[..i] + [ids[i]];
      u := BatchFailed(ArchivesOf(u, ids[i], ARCHIVE_FAILED), ids[i]);
      i := i + 1;
    }
    assert ids[..i] == ids;
  }

  // ---------------------------------------------------------------- the document limit of a scan

  /** What parsing one archive gave: its number of documents, or a failure. */
  datatype Outcome = Parsed(documents: nat) | Failed

  /** The documents of all outcomes together. */
  function Documents(outcomes: seq<Outcome>): nat {
    if outcomes == [] then 0
    else
      var last := outcomes[|outcomes| - 1];
      Documents(outcomes[..|outcomes| - 1]) + if last.Parsed? then last.documents else 0
  }

  /** They add up: a parsed archive counts its documents, a failed one nothing. */
  lemma {:induction false} DocumentsAdd(a: seq<Outcome>, b: seq<Outcome>, n: nat)
    ensures Documents([Parsed(n)]) == n && Documents([Failed]) == 0
    ensures Documents(a + b) == Documents(a) + Documents(b)
  {
    assert [Parsed(n)][..0] == [] && [Failed][..0] == [];
    if b == [] {
      assert a + b == a;
    } else {
      var k := |b| - 1;
      DocumentsAdd(a, b[..k], n);
      assert (a + b)[..|a + b| - 1] == a + b[..k];
    }
  }

  predicate OverLimit(o: Outcome, limit: nat) {
    o.Parsed? && o.documents > limit
  }

  /** The loop over the source archives of scanOnce: an archive that is over the limit by itself is recorded as
      failed, every other one as it is. The loop stops only before an archive that is not over the limit by itself
      but does not fit beside those before it; it takes at least one. */
  method TakeOutcomes(results: seq<Outcome>, limit: nat) returns (outcomes: seq<Outcome>)
    ensures |outcomes| <= |results| && (results != [] ==> outcomes != [])
    ensures forall i :: 0 <= i < |outcomes| && (results[i].Failed? || results[i].documents <= limit) ==>
              outcomes[i] == results[i]
    ensures forall i :: 0 <= i < |outcomes| && results[i].Parsed? && results[i].documents > limit ==>
              outcomes[i] == Failed
    ensures Documents(outcomes) <= limit
    ensures |outcomes| < |results| ==>
              var next := results[|outcomes|];
              next.Parsed? && next.documents <= limit && Documents(outcomes) + next.documents > limit
  {
    outcomes := [];
    var documentCount := 0;
    var i := 0;
    while i < |results|
      invariant |outcomes| == i <= |results|
      invariant forall k :: 0 <= k < i ==> outcomes[k] == if OverLimit(results[k], limit) then Failed else results[k]
      invariant documentCount == Documents(outcomes) <= limit
    {
      var outcome := results[i];
      if outcome.Parsed? && outcome.documents > limit {
        outcome := Failed;
      } else if outcome.Parsed? && outcomes != [] && documentCount + outcome.documents > limit {
        break;
      }
      if outcome.Parsed? {
        documentCount := documentCount + outcome.documents;
      }
      assert (outcomes + [outcome])[..i] == outcomes;
      outcomes := outcomes + [outcome];
      i := i + 1;
    }
  }
}
