// The archive paths that complete requests choose, over every run of the server: one path keeps every upload
// completable, two different paths can strand its file for ever.

module UploadPaths {
  import opened ChunkLayout
  import opened Common
  import opened UploadGuarantees
  import opened UploadProtocol
  import opened UploadRetry
  import opened UploadScripts
  import opened UploadServer

  // ---------------------------------------------------------------- paths along a run

  /** The path a request brings along when it finds the session open. */
  function OwnPath(ev: ServerEvent, id: nat): set<string> {
    if ev.Step? && ev.id == id && ev.e.CompleterLookup? then {ev.e.ownPath} else {}
  }

  /** All paths that complete requests of an upload have brought along. */
  function Requested(evs: seq<ServerEvent>, id: nat): set<string> {
    if evs == [] then {} else Requested(evs[..|evs| - 1], id) + OwnPath(evs[|evs| - 1], id)
  }

  lemma NamedMore(u: Upload, few: set<string>, many: set<string>)
    requires Named(u, few) && few <= many
    ensures Named(u, many)
  {
  }

  /** Steps of writers and of the cleanup choose no path. */
  lemma NamedOther(u: Upload, now: nat, ttl: Ttl, e: Event, paths: set<string>)
    requires WellFormed(u) && Named(u, paths)
    requires e.CleanerLookup? || e.CleanerUnlink? || e.CleanerDelete? || e.WriterLookup? || e.WriterBegin?
             || e.WriterOpen? || e.WriterPwrite? || e.WriterFinish? || e.WriterFail?
    ensures Named(Next(u, now, ttl, e), paths)
  {
    hide StepComplete;
  }

  /** A complete request goes on with its own path or one that was chosen before, ... */
  lemma NamedChoose(u: Upload, now: nat, ttl: Ttl, e: Event, paths: set<string>)
    requires WellFormed(u) && Named(u, paths) && (e.CompleterLookup? ==> e.ownPath in paths)
    requires e.CompleterLookup? || e.CompleterBegin? || e.CompleterFind?
    ensures Named(Next(u, now, ttl, e), paths)
  {
    hide StepWriter, StepCleaner;
    if !e.CompleterLookup? && e.k in u.completers {
      assert NamedCompleter(u.completers[e.k], paths);
    }
  }

  /** ... verifies the file under it, ... */
  lemma NamedVerify(u: Upload, now: nat, ttl: Ttl, e: Event, paths: set<string>)
    requires WellFormed(u) && Named(u, paths) && (e.CompleterLookup? ==> e.ownPath in paths)
    requires e.CompleterStat? || e.CompleterOpen? || e.CompleterRead? || e.CompleterVerdict?
    ensures Named(Next(u, now, ttl, e), paths)
  {
    hide StepWriter, StepCleaner;
    if !e.CompleterLookup? && e.k in u.completers {
      assert NamedCompleter(u.completers[e.k], paths);
    }
  }

  /** ... moves the file and writes its row under it, ... */
  lemma NamedStore(u: Upload, now: nat, ttl: Ttl, e: Event, paths: set<string>)
    requires Inv(u, now, ttl) && Named(u, paths)
    requires e.CompleterRename? || e.CompleterInsert?
    ensures Named(Next(u, now, ttl, e), paths)
  {
    hide StepWriter, StepCleaner, ChunksInv, SessionInv, WriterInv;
    if e.k in u.completers {
      assert CompleterInv(u, u.completers[e.k]) && NamedCompleter(u.completers[e.k], paths);
    }
  }

  /** ... and marks the session with it. */
  lemma NamedMark(u: Upload, now: nat, ttl: Ttl, e: Event, paths: set<string>)
    requires Inv(u, now, ttl) && Named(u, paths)
    requires e.CompleterResolve? || e.CompleterMarkArchived? || e.CompleterMarkFailed? || e.CompleterFail?
    ensures Named(Next(u, now, ttl, e), paths)
  {
    hide StepWriter, StepCleaner, ChunksInv, SessionInv, WriterInv, Lookup, BeginCompleteStatusOf, BeginCompleteKeys;
    if e.k in u.completers {
      assert CompleterInv(u, u.completers[e.k]) && NamedCompleter(u.completers[e.k], paths);
    }
  }

  lemma NamedStep(u: Upload, now: nat, ttl: Ttl, e: Event, paths: set<string>)
    requires Inv(u, now, ttl) && Named(u, paths) && (e.CompleterLookup? ==> e.ownPath in paths)
    ensures Named(Next(u, now, ttl, e), paths)
  {
    hide Next, Named, SessionInv, ChunksInv, RowsInv, WriterInv, CompleterInv;
    if e.CleanerLookup? || e.CleanerUnlink? || e.CleanerDelete? || e.WriterLookup? || e.WriterBegin?
       || e.WriterOpen? || e.WriterPwrite? || e.WriterFinish? || e.WriterFail?
    {
      NamedOther(u, now, ttl, e, paths);
    } else if e.CompleterLookup? || e.CompleterBegin? || e.CompleterFind? {
      NamedChoose(u, now, ttl, e, paths);
    } else if e.CompleterStat? || e.CompleterOpen? || e.CompleterRead? || e.CompleterVerdict? {
      NamedVerify(u, now, ttl, e, paths);
    } else if e.CompleterRename? || e.CompleterInsert? {
      NamedStore(u, now, ttl, e, paths);
    } else {
      NamedMark(u, now, ttl, e, paths);
    }
  }

  /** What one event of the server makes of one upload. */
  ghost predicate Moves(u: Upload, v: Upload, s: Server, cfg: Config, ev: ServerEvent, id: nat)
    requires WellFormed(u)
  {
    || v == u
    || (ev.Step? && ev.id == id && v == Next(u, s.now, cfg.ttl, ev.e))
    || (ev.Tick? && v == Elapse(u, s.now + ev.seconds))
    || (ev.CreateSession? && id !in s.created && v == u.(keys := u.keys.(session := Fresh(s.now + cfg.ttl.session))))
    || v == Dropped(u)
  }

  lemma ApplyMoves(s: Server, cfg: Config, ev: ServerEvent, id: nat)
    requires Sane(s) && id in s.uploads
    ensures id in Apply(s, cfg, ev).uploads && Moves(s.uploads[id], Apply(s, cfg, ev).uploads[id], s, cfg, ev, id)
  {
    hide Next, Elapse, Admit, CleanAll, Add, QuotaAfter, EffectOf, Fresh, Dropped;
  }

  lemma MovesNamed(u: Upload, v: Upload, s: Server, cfg: Config, ev: ServerEvent, id: nat, paths: set<string>)
    requires Inv(u, s.now, cfg.ttl) && Named(u, paths) && OwnPath(ev, id) <= paths
    requires Moves(u, v, s, cfg, ev, id)
    ensures Named(v, paths)
  {
    hide Next, SessionInv, ChunksInv, RowsInv, WriterInv, CompleterInv;
    if ev.Step? && ev.id == id && v == Next(u, s.now, cfg.ttl, ev.e) {
      NamedStep(u, s.now, cfg.ttl, ev.e, paths);
    }
  }

  lemma AllocatedNamed(s: Server, cfg: Config, ev: ServerEvent, id: nat)
    requires Sane(s) && id !in s.uploads && id in Apply(s, cfg, ev).uploads
    ensures Named(Apply(s, cfg, ev).uploads[id], {})
  {
    hide Next, Elapse, Admit, CleanAll, Add, QuotaAfter, EffectOf, Starts;
  }

  /** In every reachable state requests, rows, sessions and archived files carry paths that some complete request
      of the upload has brought along. */
  lemma {:induction false} RunNamed(cfg: Config, evs: seq<ServerEvent>, id: nat)
    requires ValidConfig(cfg) && id in Run(cfg, evs).uploads
    ensures Named(Run(cfg, evs).uploads[id], Requested(evs, id))
  {
    hide Apply, Named, Moves, Inv, OwnPath;
    if evs != [] {
      var init, ev := evs[..|evs| - 1], evs[|evs| - 1];
      var s := Run(cfg, init);
      if id in s.uploads {
        RunNamed(cfg, init, id);
        UploadOf(cfg, init, id);
        NamedMore(s.uploads[id], Requested(init, id), Requested(evs, id));
        ApplyMoves(s, cfg, ev, id);
        MovesNamed(s.uploads[id], Run(cfg, evs).uploads[id], s, cfg, ev, id, Requested(evs, id));
      } else {
        AllocatedNamed(s, cfg, ev, id);
        NamedMore(Run(cfg, evs).uploads[id], {}, Requested(evs, id));
      }
    }
  }

  // ---------------------------------------------------------------- one path

  /** As long as all complete requests of an upload bring the same path along, an undisturbed request succeeds in
      every reachable state if and only if the session is alive with all chunks and the file is there with the
      announced digest. */
  lemma OnePathCompletes(cfg: Config, evs: seq<ServerEvent>, id: nat, q: string, k: nat, time: nat, row: nat)
    requires ValidConfig(cfg) && id in Run(cfg, evs).uploads && Requested(evs, id) <= {q}
    requires k !in Run(cfg, evs).uploads[id].completers && q != "" && time != 0 && row > 0
    ensures var s := Run(cfg, evs);
            var u := s.uploads[id];
            var v := Completed(u, s.now, cfg.ttl, k, q, time, row);
            && k in v.completers
            && (v.completers[k].Replied? <==>
                  && u.keys.session.Present? && (SessionIs(u, UPLOADING) ==> |BitsOf(u.keys)| == Count(u.meta))
                  && u.meta.sha == Sha256(u.file) && u.place != Unlinked)
            && (v.completers[k].Replied? ==> v.rows != [] && v.completers[k].archiveId == v.rows[0].archiveId)
  {
    hide Run, Requested, Completed;
    var s := Run(cfg, evs);
    var u := s.uploads[id];
    UploadOf(cfg, evs, id);
    RunNamed(cfg, evs, id);
    NamedMore(u, Requested(evs, id), {q});
    RetrySucceedsIff(u, s.now, cfg.ttl, {q}, k, q, time, row);
    OnePlace(u, s.now, cfg.ttl, q);
  }

  lemma OnePlace(u: Upload, now: nat, ttl: Ttl, q: string)
    requires Inv(u, now, ttl) && Named(u, {q})
    ensures Completable(u, q)
       <==> && u.keys.session.Present? && (SessionIs(u, UPLOADING) ==> |BitsOf(u.keys)| == Count(u.meta))
            && u.meta.sha == Sha256(u.file) && u.place != Unlinked
  {
    hide ChunksInv, WriterInv, CompleterInv, NamedCompleter;
    assert u.rows != [] ==> u.rows[0] in u.rows;
  }

  // ---------------------------------------------------------------- stranded files

  /** The file was renamed to `q` by a request that is gone, but the session recorded another path. */
  ghost predicate Stranded(u: Upload, q: string) {
    && u.place == At(q) && u.rows == []
    && (u.keys.session.Present? ==>
          && u.keys.session.value.state != UPLOADING && u.keys.session.value.state != ARCHIVED
          && (u.keys.session.value.state == VERIFYING ==> u.keys.session.value.relativePath != q))
    && forall k <- u.completers :: !(Walking(u.completers[k]) && u.completers[k].path == q)
  }

  lemma StrandedOther(u: Upload, now: nat, ttl: Ttl, e: Event, q: string)
    requires WellFormed(u) && Stranded(u, q)
    requires e.CleanerLookup? || e.CleanerUnlink? || e.CleanerDelete? || e.WriterLookup? || e.WriterBegin?
             || e.WriterOpen? || e.WriterPwrite? || e.WriterFinish? || e.WriterFail?
    ensures Stranded(Next(u, now, ttl, e), q)
  {
    hide StepComplete;
  }

  lemma StrandedComplete(u: Upload, now: nat, ttl: Ttl, e: Event, q: string)
    requires Inv(u, now, ttl) && Stranded(u, q)
    requires !(e.CleanerLookup? || e.CleanerUnlink? || e.CleanerDelete? || e.WriterLookup? || e.WriterBegin?
               || e.WriterOpen? || e.WriterPwrite? || e.WriterFinish? || e.WriterFail?)
    ensures Stranded(Next(u, now, ttl, e), q)
  {
    hide StepWriter, StepCleaner, ChunksInv, RowsInv, WriterInv;
    if !e.CompleterLookup? && e.k in u.completers {
      assert CompleterInv(u, u.completers[e.k]);
    }
  }

  lemma StrandedStep(u: Upload, now: nat, ttl: Ttl, e: Event, q: string)
    requires Inv(u, now, ttl) && Stranded(u, q)
    ensures Stranded(Next(u, now, ttl, e), q)
  {
    hide Next, Stranded, SessionInv, ChunksInv, RowsInv, WriterInv, CompleterInv;
    if e.CleanerLookup? || e.CleanerUnlink? || e.CleanerDelete? || e.WriterLookup? || e.WriterBegin?
       || e.WriterOpen? || e.WriterPwrite? || e.WriterFinish? || e.WriterFail?
    {
      StrandedOther(u, now, ttl, e, q);
    } else {
      StrandedComplete(u, now, ttl, e, q);
    }
  }

  lemma StrandedMoves(u: Upload, v: Upload, s: Server, cfg: Config, ev: ServerEvent, id: nat, q: string)
    requires Inv(u, s.now, cfg.ttl) && Stranded(u, q) && Moves(u, v, s, cfg, ev, id) && id in s.created
    ensures Stranded(v, q)
  {
    hide Next, SessionInv, ChunksInv, RowsInv, WriterInv, CompleterInv;
    if ev.Step? && ev.id == id && v == Next(u, s.now, cfg.ttl, ev.e) {
      StrandedStep(u, s.now, cfg.ttl, ev.e, q);
    }
  }

  /** A file in the archive belongs to an upload whose session has been created. */
  lemma ArchivedCreated(cfg: Config, evs: seq<ServerEvent>, id: nat)
    requires ValidConfig(cfg) && id in Run(cfg, evs).uploads && Run(cfg, evs).uploads[id].place.At?
    ensures id in Run(cfg, evs).created
  {
    hide Run, Charged, WithinLimits, RowIdsInv, SessionInv, RowsInv, WriterInv, CompleterInv;
    RunInv(cfg, evs);
    RunNamed(cfg, evs, id);
    var u := Run(cfg, evs).uploads[id];
    assert 0 in u.everDone;
  }

  /** Once a file is stranded, it stays so for the rest of every run: no row is ever written for the upload and no
      complete request is ever answered with success. */
  lemma {:induction false} StrandedForever(cfg: Config, evs: seq<ServerEvent>, n: nat, id: nat, q: string)
    requires ValidConfig(cfg) && n <= |evs|
    requires id in Run(cfg, evs[..n]).uploads && Stranded(Run(cfg, evs[..n]).uploads[id], q)
    ensures id in Run(cfg, evs).uploads
    ensures var u := Run(cfg, evs).uploads[id];
            Stranded(u, q) && u.rows == [] && forall k <- u.completers :: !u.completers[k].Replied?
    decreases |evs|
  {
    hide Apply, Stranded, Moves, Inv;
    if n == |evs| {
      assert evs[..n] == evs;
    } else {
      var init, ev := evs[..|evs| - 1], evs[|evs| - 1];
      assert init[..n] == evs[..n];
      StrandedForever(cfg, init, n, id, q);
      var s := Run(cfg, init);
      UploadOf(cfg, init, id);
      ApplyMoves(s, cfg, ev, id);
      StrandedPlace(s.uploads[id], q);
      ArchivedCreated(cfg, init, id);
      StrandedMoves(s.uploads[id], Run(cfg, evs).uploads[id], s, cfg, ev, id, q);
    }
    UploadOf(cfg, evs, id);
    NoReply(Run(cfg, evs).uploads[id], Run(cfg, evs).now, cfg.ttl, q);
  }

  lemma StrandedPlace(u: Upload, q: string)
    requires Stranded(u, q)
    ensures u.place == At(q)
  {
  }

  lemma NoReply(u: Upload, now: nat, ttl: Ttl, q: string)
    requires Inv(u, now, ttl) && Stranded(u, q)
    ensures u.rows == [] && forall k <- u.completers :: !u.completers[k].Replied?
  {
    forall k <- u.completers
      ensures !u.completers[k].Replied?
    {
      assert CompleterInv(u, u.completers[k]);
    }
  }

  /** With one path no file of an open verification is ever stranded. */
  lemma OnePathStrandsNothing(cfg: Config, evs: seq<ServerEvent>, id: nat, q: string, p: string)
    requires ValidConfig(cfg) && id in Run(cfg, evs).uploads && Requested(evs, id) <= {q}
    requires SessionIs(Run(cfg, evs).uploads[id], VERIFYING)
    ensures !Stranded(Run(cfg, evs).uploads[id], p)
  {
    hide Run, Requested;
    RunNamed(cfg, evs, id);
    NamedMore(Run(cfg, evs).uploads[id], Requested(evs, id), {q});
  }
}
