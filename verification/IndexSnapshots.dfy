// The Segments of one query snapshot: all of them were READY at one and the same moment.

module IndexSnapshots {
  import opened Common
  import opened IndexLifecycle
  import opened IndexSafety
  import opened IndexTables

  /** Every batch of the set is READY with that digest. */
  ghost predicate AllReady(w: World, segments: set<(nat, nat)>) {
    forall p <- segments :: Is(w.tables, p.0, READY) && w.tables.batches[p.0].segment == Some(p.1)
  }

  /** What a refresh has listed, loaded or not. */
  ghost function Listed(w: World): set<(nat, nat)> {
    if w.builder.Refreshing? then (set p | p in w.builder.pending) + w.builder.loaded else {}
  }

  /** Some state up to `k` has them all READY. */
  ghost predicate OnceReady(ws: seq<World>, k: nat, segments: set<(nat, nat)>) {
    exists j :: 0 <= j <= k < |ws| && AllReady(ws[j], segments)
  }

  /** Only the steps of a refresh list and load Segments. */
  lemma OtherSteps(w: World, e: Event)
    requires CanBuilder(w, e) && !e.ListReady? && !e.LoadReady? && !e.Swap?
    ensures DoBuilder(w, e).snapshot == w.snapshot
    ensures DoBuilder(w, e).builder == w.builder || !DoBuilder(w, e).builder.Refreshing?
  {
    hide ListsBatches, ListsReady, RemoveOne, WriteOne, Building, ResetBuilding, BuildFailed, Published, Complete;
  }

  lemma RefreshLists(w: World, e: Event)
    requires CanBuilder(w, e) && (e.ListReady? || e.LoadReady? || e.Swap?)
    ensures Listed(DoBuilder(w, e)) <= Listed(w) || AllReady(w, Listed(DoBuilder(w, e)))
    ensures DoBuilder(w, e).snapshot <= w.snapshot || DoBuilder(w, e).snapshot <= Listed(w)
  {
    hide Complete;
    if e.LoadReady? {
      assert w.builder.pending[0] in w.builder.pending;
    }
  }

  /** A step lists READY batches, goes on with what was listed, or swaps it in. */
  lemma StepLists(w: World, e: Event)
    requires Can(w, e)
    ensures Listed(Do(w, e)) <= Listed(w) || AllReady(w, Listed(Do(w, e)))
    ensures Do(w, e).snapshot <= w.snapshot || Do(w, e).snapshot <= Listed(w)
  {
    hide CanBuilder, DoBuilder, CanHolder, DoHolder;
    if CanBuilder(w, e) {
      if e.ListReady? || e.LoadReady? || e.Swap? {
        RefreshLists(w, e);
      } else {
        OtherSteps(w, e);
      }
    } else if CanHolder(w, e) {
      HolderFrame(w, e);
    }
  }

  lemma FewerReady(w: World, few: set<(nat, nat)>, many: set<(nat, nat)>)
    requires AllReady(w, many) && few <= many
    ensures AllReady(w, few)
  {
  }

  lemma OnceMore(ws: seq<World>, k: nat, l: nat, few: set<(nat, nat)>, many: set<(nat, nat)>)
    requires OnceReady(ws, k, many) && few <= many && k <= l < |ws|
    ensures OnceReady(ws, l, few)
  {
    hide AllReady;
    var j :| 0 <= j <= k && AllReady(ws[j], many);
    FewerReady(ws[j], few, many);
  }

  lemma {:induction false} ListedOnceReady(ws: seq<World>, es: seq<Event>, k: nat)
    requires IsRun(ws, es) && k < |ws|
    ensures OnceReady(ws, k, Listed(ws[k])) && OnceReady(ws, k, ws[k].snapshot)
  {
    hide Can, Do, IsRun, AllReady, OnceReady;
    if k == 0 {
      RunStart(ws, es);
      NothingListed(ws);
    } else {
      ListedOnceReady(ws, es, k - 1);
      RunStep(ws, es, k);
      var w, v := ws[k - 1], ws[k];
      StepLists(w, es[k - 1]);
      if Listed(v) <= Listed(w) {
        OnceMore(ws, k - 1, k, Listed(v), Listed(w));
      } else {
        ReadyNow(ws, k - 1, k, Listed(v));
      }
      if v.snapshot <= w.snapshot {
        OnceMore(ws, k - 1, k, v.snapshot, w.snapshot);
      } else {
        OnceMore(ws, k - 1, k, v.snapshot, Listed(w));
      }
    }
  }

  lemma NothingListed(ws: seq<World>)
    requires ws != [] && ws[0] == Empty()
    ensures OnceReady(ws, 0, Listed(ws[0])) && OnceReady(ws, 0, ws[0].snapshot)
  {
    assert AllReady(ws[0], {});
  }

  lemma ReadyNow(ws: seq<World>, j: nat, k: nat, segments: set<(nat, nat)>)
    requires j <= k < |ws| && AllReady(ws[j], segments)
    ensures OnceReady(ws, k, segments)
  {
  }

  /** All Segments of a snapshot were READY, with their digests, at one and the same state of the run. There each
      batch had one digest and no archive contributed documents to two of them: no document is searched twice. */
  lemma SnapshotWasReadyAtOnce(ws: seq<World>, es: seq<Event>, k: nat)
    requires IsRun(ws, es) && k < |ws|
    ensures exists j :: 0 <= j <= k && AllReady(ws[j], ws[k].snapshot) && Disjoint(ws[j].tables, ws[k].snapshot)
  {
    hide IsRun, AllReady, Disjoint;
    ListedOnceReady(ws, es, k);
    var j :| 0 <= j <= k && AllReady(ws[j], ws[k].snapshot);
    ReadyDisjoint(ws, es, j, ws[k].snapshot);
  }

  /** Different Segments are of different batches, and these hold the documents of different archives. */
  ghost predicate Disjoint(t: Tables, segments: set<(nat, nat)>) {
    forall p <- segments, r <- segments :: p != r ==>
      && p.0 != r.0 && p.0 in t.batches && r.0 in t.batches
      && t.batches[p.0].contributors !! t.batches[r.0].contributors
  }

  lemma ReadyDisjoint(ws: seq<World>, es: seq<Event>, j: nat, segments: set<(nat, nat)>)
    requires IsRun(ws, es) && j < |ws| && AllReady(ws[j], segments)
    ensures Disjoint(ws[j].tables, segments)
  {
    hide IsRun;
    forall p <- segments, r <- segments | p != r
      ensures p.0 != r.0 && p.0 in ws[j].tables.batches && r.0 in ws[j].tables.batches
      ensures ws[j].tables.batches[p.0].contributors !! ws[j].tables.batches[r.0].contributors
    {
      forall a | a in ws[j].tables.batches[p.0].contributors && a in ws[j].tables.batches[r.0].contributors
        ensures false
      {
        OneBatchPerArchive(ws, es, j, p.0, r.0, a);
      }
    }
  }
}
