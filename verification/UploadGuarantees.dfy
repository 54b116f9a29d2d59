// What the upload server guarantees over every run: any sequence of steps of any number of requests,
// each of which may stop anywhere, with cleanup and expiry in between.

module UploadGuarantees {
  import opened Common
  import opened UploadScripts
  import opened UploadProtocol
  import opened UploadServer

  // ---------------------------------------------------------------- runs

  lemma BootInv(cfg: Config)
    ensures ServerInv(BOOT, cfg)
  {
  }

  /** The state after a sequence of steps. */
  ghost function Run(cfg: Config, evs: seq<ServerEvent>): (s: Server)
    ensures Sane(s)
  {
    if evs == [] then BOOT
    else
      var before := Run(cfg, evs[..|evs| - 1]);
      ApplySane(before, cfg, evs[|evs| - 1]);
      Apply(before, cfg, evs[|evs| - 1])
  }

  lemma {:induction false} RunInv(cfg: Config, evs: seq<ServerEvent>)
    requires ValidConfig(cfg)
    ensures ServerInv(Run(cfg, evs), cfg)
  {
    hide ServerInv, Apply;
    if evs == [] {
      BootInv(cfg);
    } else {
      RunInv(cfg, evs[..|evs| - 1]);
      ApplyInv(Run(cfg, evs[..|evs| - 1]), cfg, evs[|evs| - 1]);
    }
  }

  lemma KeepsTransitive(u: Upload, v: Upload, w: Upload)
    requires Keeps(u, v) && Keeps(v, w)
    ensures Keeps(u, w)
  {
    assert forall c <- u.everDone :: c in v.everDone;
  }

  /** Whatever a prefix of the run established stays. */
  lemma {:induction false} RunKeeps(cfg: Config, evs: seq<ServerEvent>, n: nat)
    requires ValidConfig(cfg) && n <= |evs|
    ensures AllKept(Run(cfg, evs[..n]), Run(cfg, evs))
    decreases |evs| - n
  {
    hide Keeps, ServerInv, Apply;
    var s, t := Run(cfg, evs[..n]), Run(cfg, evs);
    if n == |evs| {
      assert evs[..n] == evs;
      RunUploads(cfg, evs);
      Untouched(s, cfg.ttl);
    } else {
      var mid := Run(cfg, evs[..n + 1]);
      assert evs[..n + 1][..n] == evs[..n];
      RunInv(cfg, evs[..n]);
      ApplyInv(s, cfg, evs[n]);
      assert mid == Apply(s, cfg, evs[n]);
      RunKeeps(cfg, evs, n + 1);
      forall id <- s.uploads
        ensures id in t.uploads && Keeps(s.uploads[id], t.uploads[id])
      {
        KeepsTransitive(s.uploads[id], mid.uploads[id], t.uploads[id]);
      }
    }
  }

  lemma RunUploads(cfg: Config, evs: seq<ServerEvent>)
    requires ValidConfig(cfg)
    ensures UploadsInv(Run(cfg, evs), cfg.ttl)
  {
    hide UploadsInv, Run;
    RunInv(cfg, evs);
  }

  lemma UploadOf(cfg: Config, evs: seq<ServerEvent>, id: nat)
    requires ValidConfig(cfg) && id in Run(cfg, evs).uploads
    ensures Inv(Run(cfg, evs).uploads[id], Run(cfg, evs).now, cfg.ttl)
  {
    hide Inv, Run, Charged, WithinLimits, RowIdsInv;
    RunInv(cfg, evs);
  }

  // ---------------------------------------------------------------- chunks

  /** A set chunk bit tells the truth, now and for ever: the region holds the content of the digest
      registered for that chunk, the registration is the one in Redis while the session lives, and no
      later step of anybody, however late its descriptor, changes that region. */
  lemma SetBitsAreTrue(cfg: Config, evs: seq<ServerEvent>, n: nat, id: nat, c: nat)
    requires ValidConfig(cfg) && n <= |evs|
    requires id in Run(cfg, evs[..n]).uploads && c in BitsOf(Run(cfg, evs[..n]).uploads[id].keys)
    ensures var u := Run(cfg, evs[..n]).uploads[id];
            && WellFormed(u) && c < Count(u.meta)
            && c in u.registered && u.registered[c] == Sha256(RegionOf(u.file, u.meta, c))
            && (u.keys.session.Present? ==> c in DigestsOf(u.keys) && DigestsOf(u.keys)[c] == u.registered[c])
            && id in Run(cfg, evs).uploads
            && var v := Run(cfg, evs).uploads[id];
               && WellFormed(v) && v.meta == u.meta
               && RegionOf(v.file, v.meta, c) == RegionOf(u.file, u.meta, c)
               && c in v.registered && v.registered[c] == u.registered[c]
  {
    hide Run, ServerInv, UploadsInv;
    UploadOf(cfg, evs[..n], id);
    RunKeeps(cfg, evs, n);
    UploadOf(cfg, evs, id);
  }

  /** Freezing is sound: once a completer passed the bit count, every chunk of the file holds its
      registered content, and the file never changes again. */
  lemma FrozenFileIsFinal(cfg: Config, evs: seq<ServerEvent>, n: nat, id: nat)
    requires ValidConfig(cfg) && n <= |evs|
    requires id in Run(cfg, evs[..n]).uploads && Run(cfg, evs[..n]).uploads[id].frozen
    ensures var u := Run(cfg, evs[..n]).uploads[id];
            && WellFormed(u)
            && (forall c: nat :: c < Count(u.meta) ==>
                  c in u.registered && u.registered[c] == Sha256(RegionOf(u.file, u.meta, c)))
            && id in Run(cfg, evs).uploads && Run(cfg, evs).uploads[id].file == u.file
  {
    hide Run, ServerInv, UploadsInv;
    UploadOf(cfg, evs[..n], id);
    RunKeeps(cfg, evs, n);
  }

  // ---------------------------------------------------------------- archive

  /** One row at most, and every answer agrees with it: the row's path holds a file of the row's size
      and digest, every successful response carries its id, and a failed session has no row. */
  lemma AnswersAgree(cfg: Config, evs: seq<ServerEvent>, id: nat)
    requires ValidConfig(cfg) && id in Run(cfg, evs).uploads
    ensures var u := Run(cfg, evs).uploads[id];
            && |u.rows| <= 1
            && (forall r <- u.rows ::
                  u.place == At(r.path) && r.size == |u.file| == u.meta.fileSize
                  && r.sha == u.meta.sha == Sha256(u.file))
            && (forall k <- u.completers ::
                  u.completers[k].Replied? ==> u.rows != [] && u.rows[0].archiveId == u.completers[k].archiveId)
            && (SessionIs(u, ARCHIVED) ==> u.rows != [] && u.rows[0].archiveId == u.keys.session.value.archiveId)
            && (SessionIs(u, FAILED) ==> u.rows == [])
  {
    hide Run, ServerInv, UploadsInv;
    UploadOf(cfg, evs, id);
    var u := Run(cfg, evs).uploads[id];
    assert RowsInv(u);
    assert u.rows != [] ==> u.rows[0] in u.rows && u.rows[0].sha == Sha256(u.file);
    forall k <- u.completers
      ensures u.completers[k].Replied? ==> u.rows != [] && u.rows[0].archiveId == u.completers[k].archiveId
    {
      assert CompleterInv(u, u.completers[k]);
    }
  }

  /** All completers reach the same verdict on the file. */
  lemma VerdictsAgree(cfg: Config, evs: seq<ServerEvent>, id: nat, j: nat, k: nat)
    requires ValidConfig(cfg) && id in Run(cfg, evs).uploads
    requires j in Run(cfg, evs).uploads[id].completers && k in Run(cfg, evs).uploads[id].completers
    ensures var cs := Run(cfg, evs).uploads[id].completers;
            !((cs[j].Verified? || cs[j].Stored? || cs[j].Recorded? || cs[j].Replied?) && cs[k].Rejected?)
  {
    hide Run, UploadsInv, RowIdsInv, Charged, WithinLimits;
    UploadOf(cfg, evs, id);
    var u := Run(cfg, evs).uploads[id];
    assert RowsInv(u);
    assert CompleterInv(u, u.completers[j]) && CompleterInv(u, u.completers[k]);
    assert u.rows != [] ==> u.rows[0] in u.rows && u.rows[0].sha == Sha256(u.file);
  }

  /** Rows are for ever, and ids belong to one upload. */
  lemma RowsAreFinal(cfg: Config, evs: seq<ServerEvent>, n: nat, id: nat, other: nat)
    requires ValidConfig(cfg) && n <= |evs|
    requires id in Run(cfg, evs[..n]).uploads && Run(cfg, evs[..n]).uploads[id].rows != []
    ensures id in Run(cfg, evs).uploads
    ensures Run(cfg, evs).uploads[id].rows == Run(cfg, evs[..n]).uploads[id].rows
    ensures Run(cfg, evs).uploads[id].file == Run(cfg, evs[..n]).uploads[id].file
    ensures other in Run(cfg, evs).uploads && other != id && Run(cfg, evs).uploads[other].rows != []
            ==> Run(cfg, evs).uploads[other].rows[0].archiveId != Run(cfg, evs).uploads[id].rows[0].archiveId
  {
    hide Run, UploadsInv, Charged, WithinLimits;
    UploadOf(cfg, evs[..n], id);
    RunKeeps(cfg, evs, n);
    var u := Run(cfg, evs[..n]).uploads[id];
    assert RowsInv(u);
    assert u.rows[0] in u.rows;
    RunInv(cfg, evs);
    assert RowIdsInv(Run(cfg, evs));
  }

  // ---------------------------------------------------------------- quota

  /** The live, not archived sessions among those `pick` chooses. */
  ghost function LiveIds(s: Server, pick: nat -> bool): set<nat> {
    set id | id in s.uploads && Live(s, id) && pick(id)
  }

  ghost function MembersOf(s: Server, ids: set<nat>): set<Member>
    requires ids <= s.uploads.Keys
  {
    set id | id in ids :: MemberOf(id, s.uploads[id])
  }

  /** A quota member carries its upload id: members do not merge sessions. */
  lemma {:induction false} MembersCountSessions(s: Server, ids: set<nat>)
    requires ids <= s.uploads.Keys
    ensures |MembersOf(s, ids)| == |ids|
  {
    if ids != {} {
      var x :| x in ids;
      MembersCountSessions(s, ids - {x});
      assert MembersOf(s, ids) == MembersOf(s, ids - {x}) + {MemberOf(x, s.uploads[x])};
    }
  }

  lemma FitsIn(s: Server, ids: set<nat>, z: ZSet)
    requires ids <= s.uploads.Keys && MembersOf(s, ids) <= z.Keys
    ensures |ids| <= |z| && SumSizes(MembersOf(s, ids)) <= SumSizes(z.Keys)
  {
    MembersCountSessions(s, ids);
    SubsetSize(MembersOf(s, ids), z.Keys);
    SumMonotone(MembersOf(s, ids), z.Keys);
  }

  /** At every moment the live, not archived sessions stay within the limits: in number over all, for
      each device and for each collector, and in the sum of their file sizes. */
  lemma LiveWithinLimits(cfg: Config, evs: seq<ServerEvent>, d: string, c: string)
    requires ValidConfig(cfg)
    ensures var s := Run(cfg, evs);
            && s.uploads.Keys == s.owners.Keys
            && |LiveIds(s, id => true)| <= cfg.limits.maxActive
            && SumSizes(MembersOf(s, LiveIds(s, id => true))) <= cfg.limits.maxReserved
            && |LiveIds(s, id => id in s.owners && s.owners[id].device == d)| <= cfg.limits.maxDevice
            && |LiveIds(s, id => id in s.owners && s.owners[id].collector == c)| <= cfg.limits.maxCollector
  {
    hide Run, Inv, WellFormed, RowIdsInv;
    var s := Run(cfg, evs);
    RunInv(cfg, evs);
    assert forall id <- s.uploads :: Charged(s, id);
    FitsIn(s, LiveIds(s, id => true), s.global);
    FitsIn(s, LiveIds(s, id => id in s.owners && s.owners[id].device == d), SetOf(s.device, d));
    FitsIn(s, LiveIds(s, id => id in s.owners && s.owners[id].collector == c), SetOf(s.collector, c));
  }

  // ---------------------------------------------------------------- archived sessions

  /** An archived session is in none of its quota sets. */
  ghost predicate Freed(s: Server, id: nat)
    requires id in s.uploads && id in s.owners
  {
    SessionIs(s.uploads[id], ARCHIVED) ==>
      && MemberOf(id, s.uploads[id]) !in s.global
      && MemberOf(id, s.uploads[id]) !in SetOf(s.device, s.owners[id].device)
      && MemberOf(id, s.uploads[id]) !in SetOf(s.collector, s.owners[id].collector)
  }

  /** A step that leaves an archived session found it archived, or releases its quota. */
  ghost predicate ArchivedBy(u: Upload, now: nat, ttl: Ttl, e: Event)
    requires WellFormed(u)
  {
    SessionIs(Next(u, now, ttl, e), ARCHIVED) ==>
      EffectOf(u, now, ttl, e).Release? || (SessionIs(u, ARCHIVED) && EffectOf(u, now, ttl, e).NoEffect?)
  }

  lemma WriterArchives(u: Upload, now: nat, ttl: Ttl, e: Event)
    requires WellFormed(u)
    requires e.WriterLookup? || e.WriterBegin? || e.WriterOpen? || e.WriterPwrite? || e.WriterFinish? || e.WriterFail?
    ensures ArchivedBy(u, now, ttl, e)
  {
    hide StepComplete, StepCleaner;
  }

  lemma CleanerArchives(u: Upload, now: nat, ttl: Ttl, e: Event)
    requires WellFormed(u) && (e.CleanerLookup? || e.CleanerUnlink? || e.CleanerDelete?)
    ensures ArchivedBy(u, now, ttl, e)
  {
    hide StepComplete, StepWriter;
  }

  lemma CompleterArchives(u: Upload, now: nat, ttl: Ttl, e: Event)
    requires Inv(u, now, ttl) && (e.CompleterBegin? || e.CompleterMarkArchived? || e.CompleterMarkFailed?)
    ensures ArchivedBy(u, now, ttl, e)
  {
    hide StepWriter, StepCleaner, ChunksInv, WriterInv;
  }

  lemma OthersArchive(u: Upload, now: nat, ttl: Ttl, e: Event)
    requires WellFormed(u)
    requires e.CompleterLookup? || e.CompleterFind? || e.CompleterStat? || e.CompleterOpen? || e.CompleterRead?
             || e.CompleterVerdict? || e.CompleterRename? || e.CompleterInsert? || e.CompleterResolve?
             || e.CompleterFail?
    ensures ArchivedBy(u, now, ttl, e)
  {
    hide StepWriter, StepCleaner;
  }

  lemma StepArchives(u: Upload, now: nat, ttl: Ttl, e: Event)
    requires Inv(u, now, ttl)
    ensures WellFormed(u) && ArchivedBy(u, now, ttl, e)
  {
    assert WellFormed(u);
    hide Inv, ArchivedBy, Next;
    if e.WriterLookup? || e.WriterBegin? || e.WriterOpen? || e.WriterPwrite? || e.WriterFinish? || e.WriterFail? {
      WriterArchives(u, now, ttl, e);
    } else if e.CleanerLookup? || e.CleanerUnlink? || e.CleanerDelete? {
      CleanerArchives(u, now, ttl, e);
    } else if e.CompleterBegin? || e.CompleterMarkArchived? || e.CompleterMarkFailed? {
      CompleterArchives(u, now, ttl, e);
    } else {
      OthersArchive(u, now, ttl, e);
    }
  }

  lemma StepFrees(s: Server, cfg: Config, id: nat, e: Event, x: nat)
    requires ServerInv(s, cfg) && x in s.uploads && Freed(s, x)
    ensures var t := ApplyStep(s, cfg, id, e); x in t.uploads && x in t.owners && Freed(t, x)
  {
    hide Inv, Next, EffectOf, Charged, WithinLimits, RowIdsInv, WellFormed;
    if x == id {
      StepArchives(s.uploads[x], s.now, cfg.ttl, e);
      StepEffect(s.uploads[x], s.now, cfg.ttl, e);
    }
  }

  lemma CreateFrees(s: Server, cfg: Config, id: nat, delivery: Delivery, x: nat)
    requires ServerInv(s, cfg) && x in s.uploads && Freed(s, x)
    ensures var t := ApplyCreate(s, cfg, id, delivery); x in t.uploads && x in t.owners && Freed(t, x)
  {
    hide ServerInv, Sane, Freed, ApplyCreate;
    SaneServer(s, cfg);
    if x == id {
      OwnCreate(s, cfg, x, delivery);
    } else {
      OtherCreate(s, cfg, id, delivery, x);
    }
  }

  lemma SaneServer(s: Server, cfg: Config)
    requires ServerInv(s, cfg)
    ensures Sane(s)
    ensures forall id <- s.uploads :: id !in s.created ==> s.uploads[id].keys == EMPTY_KEYS
  {
    hide Inv, Charged, WithinLimits, RowIdsInv, WellFormed;
  }

  /** A session that has just been created is not archived. */
  lemma OwnCreate(s: Server, cfg: Config, id: nat, delivery: Delivery)
    requires Sane(s) && id in s.uploads && Freed(s, id) && (id !in s.created ==> s.uploads[id].keys == EMPTY_KEYS)
    ensures var t := ApplyCreate(s, cfg, id, delivery); id in t.uploads && id in t.owners && Freed(t, id)
  {
    hide WellFormed, Admit, CleanAll, Add, QuotaFor;
  }

  lemma OtherCreate(s: Server, cfg: Config, id: nat, delivery: Delivery, x: nat)
    requires Sane(s) && x in s.uploads && Freed(s, x) && x != id
    ensures var t := ApplyCreate(s, cfg, id, delivery); x in t.uploads && x in t.owners && Freed(t, x)
  {
    hide WellFormed, Admit, CleanAll, Fresh;
    if id in s.uploads {
      NoneCleanedIn(QuotaFor(s, s.owners[id]), s.now, MemberOf(x, s.uploads[x]));
    }
  }

  lemma NoneCleanedIn(q: Quota, now: nat, m: Member)
    ensures m !in q.global ==> m !in CleanAll(q, now).global
    ensures m !in q.device ==> m !in CleanAll(q, now).device
    ensures m !in q.collector ==> m !in CleanAll(q, now).collector
  {
  }

  lemma OtherFrees(s: Server, cfg: Config, ev: ServerEvent, x: nat)
    requires ServerInv(s, cfg) && x in s.uploads && Freed(s, x) && !ev.Step? && !ev.CreateSession?
    ensures var t := Apply(s, cfg, ev); x in t.uploads && x in t.owners && Freed(t, x)
  {
    hide Inv, Charged, WithinLimits, RowIdsInv, WellFormed, MetaFor, ApplyCreate, ApplyStep;
  }

  lemma NewFrees(s: Server, cfg: Config, ev: ServerEvent, x: nat)
    requires Sane(s) && x !in s.uploads && x in Apply(s, cfg, ev).uploads
    ensures x in Apply(s, cfg, ev).owners && Freed(Apply(s, cfg, ev), x)
  {
    hide Next, EffectOf, WellFormed, Admit, MetaFor;
  }

  /** Over every run, an archived session no longer takes up quota anywhere. */
  lemma {:induction false} ArchivedFreesQuota(cfg: Config, evs: seq<ServerEvent>, id: nat)
    requires ValidConfig(cfg) && id in Run(cfg, evs).uploads
    ensures id in Run(cfg, evs).owners && Freed(Run(cfg, evs), id)
  {
    hide Apply, Freed, ServerInv;
    if evs != [] {
      var init, ev := evs[..|evs| - 1], evs[|evs| - 1];
      var s := Run(cfg, init);
      if id in s.uploads {
        ArchivedFreesQuota(cfg, init, id);
        RunInv(cfg, init);
        if ev.Step? {
          StepFrees(s, cfg, ev.id, ev.e, id);
          StepIs(s, cfg, ev);
        } else if ev.CreateSession? {
          CreateFrees(s, cfg, ev.id, ev.delivery, id);
          StepIs(s, cfg, ev);
        } else {
          OtherFrees(s, cfg, ev, id);
        }
      } else {
        NewFrees(s, cfg, ev, id);
      }
    }
  }

  lemma StepIs(s: Server, cfg: Config, ev: ServerEvent)
    requires Sane(s)
    ensures ev.Step? ==> Apply(s, cfg, ev) == ApplyStep(s, cfg, ev.id, ev.e)
    ensures ev.CreateSession? ==> Apply(s, cfg, ev) == ApplyCreate(s, cfg, ev.id, ev.delivery)
  {
  }
}
