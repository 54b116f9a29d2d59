// The whole server: every upload with its own state machine, one clock, one archive table that hands
// out ids, and the three families of quota sets shared by all sessions.

module UploadServer {
  import opened Common
  import opened ChunkLayout
  import opened UploadScripts
  import opened UploadProtocol

  datatype Owner = Owner(device: string, collector: string)

  datatype Config = Config(ttl: Ttl, limits: Limits)

  ghost predicate ValidConfig(c: Config) {
    c.ttl.session > 0 && c.ttl.terminal > 0
  }

  datatype Server = Server(
    now: nat,
    uploads: map<nat, Upload>,
    owners: map<nat, Owner>,
    created: set<nat>,
    abandoned: set<nat>,
    global: ZSet,
    device: map<string, ZSet>,
    collector: map<string, ZSet>,
    nextArchiveId: nat)

  const BOOT := Server(0, map[], map[], {}, {}, map[], map[], map[], 1)

  /** What becomes of the create script: it answers, it takes effect but its answer is lost, or it never runs. */
  datatype Delivery = Answered | AnswerLost | NotRun

  datatype ServerEvent =
    | Allocate(id: nat, fileSize: nat, chunkSize: nat, sha: Digest, owner: Owner)
    | CreateSession(id: nat, delivery: Delivery)
    | Abandon(id: nat)
    | Step(id: nat, e: Event)
    | Tick(seconds: nat)

  // ---------------------------------------------------------------- steps

  function SetOf(m: map<string, ZSet>, key: string): ZSet {
    if key in m then m[key] else map[]
  }

  function QuotaFor(s: Server, o: Owner): Quota {
    Quota(s.global, SetOf(s.device, o.device), SetOf(s.collector, o.collector))
  }

  function WithQuota(s: Server, o: Owner, q: Quota): Server {
    s.(global := q.global, device := s.device[o.device := q.device],
       collector := s.collector[o.collector := q.collector])
  }

  function MemberOf(id: nat, u: Upload): Member {
    Member(id, u.meta.fileSize)
  }

  /** What the script inside a step does to the quota sets of the session. */
  datatype Effect = ChargeUntil(at: nat) | Release | NoEffect

  function EffectOf(u: Upload, now: nat, ttl: Ttl, e: Event): Effect {
    match e
    case WriterFinish(w) =>
      if && w in u.writers && u.writers[w].Writing? && u.writers[w].written == |u.writers[w].body|
         && FinishChunkOk(u.keys, u.writers[w].chunk, Sha256(u.writers[w].body))
      then ChargeUntil(now + ttl.session) else NoEffect
    case CompleterMarkFailed(k) =>
      if k in u.completers && u.completers[k].Rejected? && u.keys.session.Present?
      then ChargeUntil(now + ttl.terminal) else NoEffect
    case CompleterMarkArchived(k) =>
      if k in u.completers && u.completers[k].Recorded? && u.keys.session.Present?
      then Release else NoEffect
    case _ => NoEffect
  }

  function QuotaAfter(q: Quota, m: Member, f: Effect): Quota {
    match f
    case ChargeUntil(at) => Add(q, m, at)
    case Release => Remove(q, m)
    case NoEffect => q
  }

  ghost predicate Sane(s: Server) {
    s.uploads.Keys == s.owners.Keys && forall id <- s.uploads :: WellFormed(s.uploads[id])
  }

  /** posix_fallocate made the temporary file; its metadata passed the request checks. */
  ghost function ApplyAllocate(s: Server, id: nat, size: nat, chunk: nat, sha: Digest, owner: Owner): Server {
    if id in s.uploads || size == 0 || chunk == 0 then s
    else s.(uploads := s.uploads[id := Upload(MetaFor(size, chunk, sha), EMPTY_KEYS, seq(size, _ => 0), Temp,
                                              map[], map[], [], Idle, map[], {}, false)],
            owners := s.owners[id := owner])
  }

  /** The create script. A request that is not told of success will remove its file again. */
  ghost function ApplyCreate(s: Server, cfg: Config, id: nat, delivery: Delivery): Server
    requires Sane(s)
  {
    if id !in s.uploads || id in s.created then s
    else if delivery == NotRun then s.(created := s.created + {id}, abandoned := s.abandoned + {id})
    else
      var u := s.uploads[id];
      var q := CleanAll(QuotaFor(s, s.owners[id]), s.now);
      var expires := s.now + cfg.ttl.session;
      var admitted := Admit(u.keys.session.Present?, q, u.meta.fileSize, cfg.limits) == Created;
      WithQuota(
        s.(uploads := s.uploads[id := if admitted then u.(keys := u.keys.(session := Fresh(expires))) else u],
           created := s.created + {id},
           abandoned := if admitted && delivery == Answered then s.abandoned else s.abandoned + {id}),
        s.owners[id], if admitted then Add(q, MemberOf(id, u), expires) else q)
  }

  /** A create request without success unlinks its temporary file, whatever the script has done. */
  function ApplyAbandon(s: Server, id: nat): Server {
    if id !in s.uploads || id !in s.abandoned then s
    else s.(uploads := s.uploads[id := Dropped(s.uploads[id])], abandoned := s.abandoned - {id})
  }

  function Dropped(u: Upload): Upload {
    u.(place := if u.place == Temp then Unlinked else u.place)
  }

  ghost function ApplyStep(s: Server, cfg: Config, id: nat, e: Event): Server
    requires Sane(s)
  {
    if id !in s.uploads || (e.CompleterInsert? && e.freshId != s.nextArchiveId) then s
    else
      var u := s.uploads[id];
      WithQuota(
        s.(uploads := s.uploads[id := Next(u, s.now, cfg.ttl, e)],
           nextArchiveId := if e.CompleterInsert? then s.nextArchiveId + 1 else s.nextArchiveId),
        s.owners[id], QuotaAfter(QuotaFor(s, s.owners[id]), MemberOf(id, u), EffectOf(u, s.now, cfg.ttl, e)))
  }

  function ApplyTick(s: Server, seconds: nat): Server {
    s.(now := s.now + seconds,
       uploads := map id <- s.uploads :: Elapse(s.uploads[id], s.now + seconds))
  }

  ghost function Apply(s: Server, cfg: Config, ev: ServerEvent): Server
    requires Sane(s)
  {
    match ev
    case Allocate(id, size, chunk, sha, owner) => ApplyAllocate(s, id, size, chunk, sha, owner)
    case CreateSession(id, delivery) => ApplyCreate(s, cfg, id, delivery)
    case Abandon(id) => ApplyAbandon(s, id)
    case Step(id, e) => ApplyStep(s, cfg, id, e)
    case Tick(seconds) => ApplyTick(s, seconds)
  }

  lemma StepSane(s: Server, cfg: Config, id: nat, e: Event)
    requires Sane(s)
    ensures Sane(ApplyStep(s, cfg, id, e))
  {
    hide WellFormed, Next, EffectOf, QuotaAfter, QuotaFor;
    if id in s.uploads {
      NextWellFormed(s.uploads[id], s.now, cfg.ttl, e);
    }
  }

  lemma AllocateSane(s: Server, id: nat, size: nat, chunk: nat, sha: Digest, owner: Owner)
    requires Sane(s)
    ensures Sane(ApplyAllocate(s, id, size, chunk, sha, owner))
  {
    hide ExpectedLength, ReadLength, Offset, Starts, Cuts;
    if size > 0 && chunk > 0 {
      StartsCut(size, chunk);
    }
  }

  /** Every step leaves files of the announced sizes, and an owner for every upload. */
  lemma ApplySane(s: Server, cfg: Config, ev: ServerEvent)
    requires Sane(s)
    ensures Sane(Apply(s, cfg, ev))
  {
    hide ApplyAllocate, ApplyStep, Admit, CleanAll, Add, PurgeKeys, QuotaFor;
    if ev.Allocate? {
      AllocateSane(s, ev.id, ev.fileSize, ev.chunkSize, ev.sha, ev.owner);
    } else if ev.Step? {
      StepSane(s, cfg, ev.id, ev.e);
    }
  }

  // ---------------------------------------------------------------- invariant

  /** Session `id` exists and is not archived: it still occupies quota. */
  ghost predicate Live(s: Server, id: nat) {
    && id in s.uploads && s.uploads[id].keys.session.Present?
    && s.uploads[id].keys.session.value.state != ARCHIVED
  }

  ghost predicate Scored(z: ZSet, m: Member, at: nat) {
    m in z && z[m] == at
  }

  /** A live session is in its three sets, at the second its key dies. */
  ghost predicate Charged(s: Server, id: nat)
    requires id in s.uploads && id in s.owners
  {
    var u := s.uploads[id];
    Live(s, id) ==>
      && s.now < u.keys.session.expiry
      && Scored(s.global, MemberOf(id, u), u.keys.session.expiry)
      && Scored(SetOf(s.device, s.owners[id].device), MemberOf(id, u), u.keys.session.expiry)
      && Scored(SetOf(s.collector, s.owners[id].collector), MemberOf(id, u), u.keys.session.expiry)
  }

  ghost predicate WithinLimits(s: Server, l: Limits) {
    && |s.global| <= l.maxActive
    && (forall d <- s.device :: |s.device[d]| <= l.maxDevice)
    && (forall c <- s.collector :: |s.collector[c]| <= l.maxCollector)
    && SumSizes(s.global.Keys) <= l.maxReserved
  }

  ghost predicate UploadsInv(s: Server, ttl: Ttl) {
    && Sane(s) && s.created <= s.uploads.Keys
    && forall id <- s.uploads ::
         && Inv(s.uploads[id], s.now, ttl)
         && (id !in s.created ==> s.uploads[id].keys == EMPTY_KEYS && s.uploads[id].registered == map[])
  }

  ghost predicate RowIdsInv(s: Server) {
    && s.nextArchiveId > 0
    && (forall id <- s.uploads :: s.uploads[id].rows != [] ==> s.uploads[id].rows[0].archiveId < s.nextArchiveId)
    && forall i <- s.uploads, j <- s.uploads ::
         i != j && s.uploads[i].rows != [] && s.uploads[j].rows != []
         ==> s.uploads[i].rows[0].archiveId != s.uploads[j].rows[0].archiveId
  }

  ghost predicate ServerInv(s: Server, cfg: Config) {
    && UploadsInv(s, cfg.ttl) && RowIdsInv(s)
    && (forall id <- s.uploads :: Charged(s, id))
    && WithinLimits(s, cfg.limits)
  }

  // ---------------------------------------------------------------- uploads part

  /** An upload that was not yet created has no requests: nothing moves it but the cleanup thread. */
  lemma UncreatedStep(u: Upload, now: nat, ttl: Ttl, e: Event)
    requires Inv(u, now, ttl) && u.keys == EMPTY_KEYS && u.registered == map[]
    ensures Next(u, now, ttl, e).keys == EMPTY_KEYS && Next(u, now, ttl, e).registered == map[]
  {
  }

  ghost predicate AllKept(s: Server, t: Server) {
    forall id <- s.uploads :: id in t.uploads && Keeps(s.uploads[id], t.uploads[id])
  }

  lemma Replaced(s: Server, t: Server, ttl: Ttl, id: nat)
    requires UploadsInv(s, ttl) && id in s.uploads && id in t.uploads
    requires t.now == s.now && t.uploads == s.uploads[id := t.uploads[id]] && t.owners == s.owners
    requires s.created <= t.created <= s.created + {id}
    requires Inv(t.uploads[id], s.now, ttl) && Keeps(s.uploads[id], t.uploads[id])
    requires id !in t.created ==> t.uploads[id].keys == EMPTY_KEYS && t.uploads[id].registered == map[]
    ensures UploadsInv(t, ttl) && AllKept(s, t)
  {
    hide Inv, Keeps, WellFormed;
    forall x <- s.uploads
      ensures WellFormed(t.uploads[x]) && Keeps(s.uploads[x], t.uploads[x])
    {
      KeepsSelf(s.uploads[x], s.now, ttl);
      InvWellFormed(t.uploads[x], s.now, ttl);
    }
  }

  lemma KeepsSelf(u: Upload, now: nat, ttl: Ttl)
    requires Inv(u, now, ttl)
    ensures Keeps(u, u)
  {
  }

  lemma InvWellFormed(u: Upload, now: nat, ttl: Ttl)
    requires Inv(u, now, ttl)
    ensures WellFormed(u)
  {
  }

  lemma Untouched(s: Server, ttl: Ttl)
    requires UploadsInv(s, ttl)
    ensures AllKept(s, s)
  {
    hide Inv, Keeps, WellFormed;
    forall x <- s.uploads
      ensures Keeps(s.uploads[x], s.uploads[x])
    {
      KeepsSelf(s.uploads[x], s.now, ttl);
    }
  }

  lemma FreshInv(u: Upload, size: nat, chunk: nat, sha: Digest, now: nat, ttl: Ttl)
    requires size > 0 && chunk > 0
    requires u == Upload(MetaFor(size, chunk, sha), EMPTY_KEYS, seq(size, _ => 0), Temp,
                         map[], map[], [], Idle, map[], {}, false)
    ensures Inv(u, now, ttl)
  {
    StartsCut(size, chunk);
    AllocatedInv(u, now, ttl);
  }

  lemma AllocateUploads(s: Server, ttl: Ttl, id: nat, size: nat, chunk: nat, sha: Digest, owner: Owner)
    requires UploadsInv(s, ttl)
    ensures var t := ApplyAllocate(s, id, size, chunk, sha, owner); UploadsInv(t, ttl) && AllKept(s, t)
  {
    hide Inv, Keeps, WellFormed;
    Untouched(s, ttl);
    var t := ApplyAllocate(s, id, size, chunk, sha, owner);
    if t != s {
      StartsCut(size, chunk);
      FreshInv(t.uploads[id], size, chunk, sha, t.now, ttl);
      InvWellFormed(t.uploads[id], t.now, ttl);
    }
  }

  /** The create request failed and removes its file. */
  lemma DropInv(u: Upload, now: nat, ttl: Ttl)
    requires Inv(u, now, ttl)
    ensures Inv(Dropped(u), now, ttl) && Keeps(u, Dropped(u))
  {
    FrameInv(u, Dropped(u), now, ttl);
  }

  lemma CreateUploads(s: Server, cfg: Config, id: nat, delivery: Delivery)
    requires UploadsInv(s, cfg.ttl)
    ensures var t := ApplyCreate(s, cfg, id, delivery); UploadsInv(t, cfg.ttl) && AllKept(s, t)
  {
    hide Inv, Keeps, WellFormed, Admit, CleanAll, Add, Fresh;
    Untouched(s, cfg.ttl);
    if id in s.uploads && id !in s.created {
      CreateInv(s.uploads[id], s.now, cfg.ttl);
      KeepsSelf(s.uploads[id], s.now, cfg.ttl);
      Replaced(s, ApplyCreate(s, cfg, id, delivery), cfg.ttl, id);
    }
  }

  lemma AbandonUploads(s: Server, ttl: Ttl, id: nat)
    requires UploadsInv(s, ttl)
    ensures UploadsInv(ApplyAbandon(s, id), ttl) && AllKept(s, ApplyAbandon(s, id))
  {
    hide Inv, Keeps, WellFormed;
    Untouched(s, ttl);
    if id in s.uploads && id in s.abandoned {
      DropInv(s.uploads[id], s.now, ttl);
      Replaced(s, ApplyAbandon(s, id), ttl, id);
    }
  }

  lemma StepUploads(s: Server, cfg: Config, id: nat, e: Event)
    requires UploadsInv(s, cfg.ttl)
    ensures var t := ApplyStep(s, cfg, id, e); UploadsInv(t, cfg.ttl) && AllKept(s, t)
  {
    hide Inv, Keeps, WellFormed, Next, QuotaAfter, EffectOf;
    Untouched(s, cfg.ttl);
    if id in s.uploads && !(e.CompleterInsert? && e.freshId != s.nextArchiveId) {
      StepInv(s.uploads[id], s.now, cfg.ttl, e);
      if id !in s.created {
        UncreatedStep(s.uploads[id], s.now, cfg.ttl, e);
      }
      Replaced(s, ApplyStep(s, cfg, id, e), cfg.ttl, id);
    }
  }

  lemma TickUploads(s: Server, ttl: Ttl, seconds: nat)
    requires UploadsInv(s, ttl)
    ensures var t := ApplyTick(s, seconds); UploadsInv(t, ttl) && AllKept(s, t)
  {
    hide Inv, Keeps, WellFormed;
    var t := ApplyTick(s, seconds);
    forall id <- s.uploads
      ensures Inv(t.uploads[id], t.now, ttl) && WellFormed(t.uploads[id])
      ensures Keeps(s.uploads[id], t.uploads[id])
    {
      ElapseInv(s.uploads[id], s.now, t.now, ttl);
      InvWellFormed(Elapse(s.uploads[id], t.now), t.now, ttl);
    }
  }

  lemma ApplyUploads(s: Server, cfg: Config, ev: ServerEvent)
    requires UploadsInv(s, cfg.ttl)
    ensures UploadsInv(Apply(s, cfg, ev), cfg.ttl) && AllKept(s, Apply(s, cfg, ev))
  {
    hide UploadsInv, AllKept, ApplyAllocate, ApplyCreate, ApplyAbandon, ApplyStep, ApplyTick;
    match ev
    case Allocate(id, size, chunk, sha, owner) => AllocateUploads(s, cfg.ttl, id, size, chunk, sha, owner);
    case CreateSession(id, delivery) => CreateUploads(s, cfg, id, delivery);
    case Abandon(id) => AbandonUploads(s, cfg.ttl, id);
    case Step(id, e) => StepUploads(s, cfg, id, e);
    case Tick(seconds) => TickUploads(s, cfg.ttl, seconds);
  }

  // ---------------------------------------------------------------- archive ids

  lemma RowsAfterStep(u: Upload, now: nat, ttl: Ttl, e: Event)
    requires Inv(u, now, ttl)
    ensures var v := Next(u, now, ttl, e);
            v.rows == u.rows
            || (e.CompleterInsert? && u.rows == [] && |v.rows| == 1 && v.rows[0].archiveId == e.freshId)
  {
    hide SessionInv, ChunksInv, RowsInv, WriterInv, CompleterInv, Lookup, BeginCompleteStatusOf, BeginCompleteKeys,
         MarkArchivedKeys, MarkFailedKeys, BeginChunkStatusOf, BeginChunkKeys, FinishChunkOk, FinishChunkKeys;
  }

  ghost predicate RowsGrow(s: Server, t: Server) {
    && s.nextArchiveId <= t.nextArchiveId
    && forall x <- t.uploads ::
         || (x in s.uploads && t.uploads[x].rows == s.uploads[x].rows)
         || t.uploads[x].rows == []
         || (x in s.uploads && |t.uploads[x].rows| == 1 && t.uploads[x].rows[0].archiveId == s.nextArchiveId
             && t.nextArchiveId == s.nextArchiveId + 1
             && forall y <- t.uploads :: y != x && y in s.uploads ==> t.uploads[y].rows == s.uploads[y].rows)
  }

  lemma GrowRowIds(s: Server, t: Server)
    requires RowIdsInv(s) && RowsGrow(s, t)
    ensures RowIdsInv(t)
  {
  }

  lemma ApplyRowIds(s: Server, cfg: Config, ev: ServerEvent)
    requires UploadsInv(s, cfg.ttl) && RowIdsInv(s)
    ensures RowIdsInv(Apply(s, cfg, ev))
  {
    hide Inv, WellFormed, Next, QuotaAfter, EffectOf, Admit, CleanAll, Add, RowIdsInv, WithQuota;
    var t := Apply(s, cfg, ev);
    if ev.Step? && ev.id in s.uploads {
      RowsAfterStep(s.uploads[ev.id], s.now, cfg.ttl, ev.e);
      GrowStep(s, cfg, ev.id, ev.e);
    } else if ev.CreateSession? {
      GrowCreate(s, cfg, ev.id, ev.delivery);
    } else {
      assert RowsGrow(s, t);
    }
    GrowRowIds(s, t);
  }

  lemma GrowStep(s: Server, cfg: Config, id: nat, e: Event)
    requires Sane(s) && id in s.uploads
    requires var u, v := s.uploads[id], Next(s.uploads[id], s.now, cfg.ttl, e);
             v.rows == u.rows
             || (e.CompleterInsert? && u.rows == [] && |v.rows| == 1 && v.rows[0].archiveId == e.freshId)
    ensures RowsGrow(s, ApplyStep(s, cfg, id, e))
  {
    hide WellFormed, Next, QuotaAfter, EffectOf;
  }

  lemma GrowCreate(s: Server, cfg: Config, id: nat, delivery: Delivery)
    requires Sane(s)
    ensures RowsGrow(s, ApplyCreate(s, cfg, id, delivery))
  {
    hide WellFormed, Admit, CleanAll, Add;
  }

  // ---------------------------------------------------------------- quota

  /** How the session of one upload and its quota effect belong together. */
  ghost predicate EffectOk(u: Upload, now: nat, ttl: Ttl, e: Event)
    requires WellFormed(u)
  {
    var before, after := u.keys.session, Next(u, now, ttl, e).keys.session;
    match EffectOf(u, now, ttl, e)
    case ChargeUntil(at) =>
      && before.Present? && before.value.state != ARCHIVED
      && after.Present? && after.expiry == at && (at == now + ttl.session || at == now + ttl.terminal)
    case Release => after.Present? && after.value.state == ARCHIVED
    case NoEffect =>
      after.Present? && after.value.state != ARCHIVED
      ==> before.Present? && before.value.state != ARCHIVED && after.expiry == before.expiry
  }

  lemma WriterEffect(u: Upload, now: nat, ttl: Ttl, e: Event)
    requires WellFormed(u)
    requires e.WriterLookup? || e.WriterBegin? || e.WriterOpen? || e.WriterPwrite? || e.WriterFinish? || e.WriterFail?
    ensures EffectOk(u, now, ttl, e) && Next(u, now, ttl, e).meta == u.meta
  {
    hide StepComplete, StepCleaner;
  }

  lemma CleanerEffect(u: Upload, now: nat, ttl: Ttl, e: Event)
    requires WellFormed(u) && (e.CleanerLookup? || e.CleanerUnlink? || e.CleanerDelete?)
    ensures EffectOk(u, now, ttl, e) && Next(u, now, ttl, e).meta == u.meta
  {
    hide StepComplete, StepWriter;
  }

  lemma CompleterEffect(u: Upload, now: nat, ttl: Ttl, e: Event)
    requires WellFormed(u) && Inv(u, now, ttl)
    requires !(e.WriterLookup? || e.WriterBegin? || e.WriterOpen? || e.WriterPwrite? || e.WriterFinish?
               || e.WriterFail?)
    requires !(e.CleanerLookup? || e.CleanerUnlink? || e.CleanerDelete?)
    ensures EffectOk(u, now, ttl, e) && Next(u, now, ttl, e).meta == u.meta
  {
    hide StepWriter, StepCleaner, ChunksInv;
    if e.CompleterMarkFailed? && e.k in u.completers {
      assert CompleterInv(u, u.completers[e.k]);
    }
  }

  /** Here the quota argument uses the archive argument: a session is marked failed only when it was
      not archived. */
  lemma StepEffect(u: Upload, now: nat, ttl: Ttl, e: Event)
    requires Inv(u, now, ttl)
    ensures EffectOk(u, now, ttl, e) && Next(u, now, ttl, e).meta == u.meta
  {
    assert WellFormed(u);
    hide Inv, EffectOk, Next;
    if e.WriterLookup? || e.WriterBegin? || e.WriterOpen? || e.WriterPwrite? || e.WriterFinish? || e.WriterFail? {
      WriterEffect(u, now, ttl, e);
    } else if e.CleanerLookup? || e.CleanerUnlink? || e.CleanerDelete? {
      CleanerEffect(u, now, ttl, e);
    } else {
      CompleterEffect(u, now, ttl, e);
    }
  }

  lemma CleanSmaller(z: ZSet, now: nat)
    ensures |Clean(z, now)| <= |z| && SumSizes(Clean(z, now).Keys) <= SumSizes(z.Keys)
  {
    assert Clean(z, now).Keys <= z.Keys;
    SubsetSize(Clean(z, now).Keys, z.Keys);
    SumMonotone(Clean(z, now).Keys, z.Keys);
  }

  lemma AddSize(z: ZSet, m: Member, at: nat)
    ensures |z[m := at]| <= |z| + 1
    ensures SumSizes(z[m := at].Keys) <= SumSizes(z.Keys) + m.size
    ensures m in z ==> z[m := at].Keys == z.Keys && |z[m := at]| == |z|
  {
    assert z[m := at].Keys == z.Keys + {m};
    if m in z {
      assert z[m := at].Keys == z.Keys;
    } else {
      SumRemove(z[m := at].Keys, m);
      assert z[m := at].Keys - {m} == z.Keys;
    }
  }

  lemma RemoveSmaller(z: ZSet, m: Member)
    ensures |z - {m}| <= |z| && SumSizes((z - {m}).Keys) <= SumSizes(z.Keys)
  {
    assert (z - {m}).Keys <= z.Keys;
    SubsetSize((z - {m}).Keys, z.Keys);
    SumMonotone((z - {m}).Keys, z.Keys);
  }

  ghost predicate QuotaWithin(q: Quota, l: Limits) {
    && |q.global| <= l.maxActive && |q.device| <= l.maxDevice && |q.collector| <= l.maxCollector
    && SumSizes(q.global.Keys) <= l.maxReserved
  }

  /** Nobody else's unexpired entry was lost. */
  ghost predicate OthersStay(q: Quota, r: Quota, now: nat, m: Member) {
    && (forall x <- q.global :: x != m && q.global[x] > now ==> Scored(r.global, x, q.global[x]))
    && (forall x <- q.device :: x != m && q.device[x] > now ==> Scored(r.device, x, q.device[x]))
    && (forall x <- q.collector :: x != m && q.collector[x] > now ==> Scored(r.collector, x, q.collector[x]))
  }

  ghost predicate QuotaHas(q: Quota, m: Member, at: nat) {
    Scored(q.global, m, at) && Scored(q.device, m, at) && Scored(q.collector, m, at)
  }

  lemma CleanedWithin(q: Quota, now: nat, l: Limits)
    requires QuotaWithin(q, l)
    ensures QuotaWithin(CleanAll(q, now), l)
  {
    CleanSmaller(q.global, now);
    CleanSmaller(q.device, now);
    CleanSmaller(q.collector, now);
  }

  /** An admitted session fits. */
  lemma AdmittedWithin(q: Quota, m: Member, at: nat, present: bool, l: Limits)
    requires Admit(present, q, m.size, l) == Created
    ensures QuotaWithin(Add(q, m, at), l)
  {
    AddSize(q.global, m, at);
    AddSize(q.device, m, at);
    AddSize(q.collector, m, at);
  }

  /** Charging a session that is already charged, or releasing one, adds nothing. */
  lemma EffectWithin(q: Quota, m: Member, f: Effect, l: Limits)
    requires QuotaWithin(q, l)
    requires f.ChargeUntil? ==> m in q.global && m in q.device && m in q.collector
    ensures QuotaWithin(QuotaAfter(q, m, f), l)
  {
    if f.ChargeUntil? {
      AddSize(q.global, m, f.at);
      AddSize(q.device, m, f.at);
      AddSize(q.collector, m, f.at);
    } else if f.Release? {
      RemoveSmaller(q.global, m);
      RemoveSmaller(q.device, m);
      RemoveSmaller(q.collector, m);
    }
  }

  lemma QuotaForWithin(s: Server, o: Owner, l: Limits)
    requires WithinLimits(s, l)
    ensures QuotaWithin(QuotaFor(s, o), l)
  {
  }

  /** One upload moved, its owner's three sets were replaced: the rest follows. */
  lemma QuotaReplaced(s: Server, t: Server, cfg: Config, id: nat, r: Quota)
    requires Sane(s) && id in s.uploads && (forall x <- s.uploads :: Charged(s, x)) && WithinLimits(s, cfg.limits)
    requires t.now == s.now && t.owners == s.owners
    requires id in t.uploads && t.uploads == s.uploads[id := t.uploads[id]]
    requires t.global == r.global && t.device == s.device[s.owners[id].device := r.device]
    requires t.collector == s.collector[s.owners[id].collector := r.collector]
    requires QuotaWithin(r, cfg.limits)
    requires OthersStay(QuotaFor(s, s.owners[id]), r, s.now, MemberOf(id, s.uploads[id]))
    requires Charged(t, id)
    ensures (forall x <- t.uploads :: x in t.owners && Charged(t, x)) && WithinLimits(t, cfg.limits)
  {
    hide WellFormed, Charged, OthersStay;
    forall x <- t.uploads
      ensures x in t.owners && Charged(t, x)
    {
      if x != id {
        assert Charged(s, x);
        OtherCharged(s, t, id, r, x);
      }
    }
  }

  lemma OtherCharged(s: Server, t: Server, id: nat, q: Quota, other: nat)
    requires Sane(s) && id in s.uploads && other in s.uploads && other != id && Charged(s, other)
    requires OthersStay(QuotaFor(s, s.owners[id]), q, s.now, MemberOf(id, s.uploads[id]))
    requires t.now == s.now && t.owners == s.owners && other in t.uploads && t.uploads[other] == s.uploads[other]
    requires t.global == q.global && t.device == s.device[s.owners[id].device := q.device]
    requires t.collector == s.collector[s.owners[id].collector := q.collector]
    ensures Charged(t, other)
  {
  }

  lemma CleanedStays(q: Quota, now: nat, m: Member)
    ensures OthersStay(q, CleanAll(q, now), now, m)
  {
  }

  lemma AddedStays(q: Quota, r: Quota, now: nat, m: Member, at: nat)
    requires OthersStay(q, r, now, m)
    ensures OthersStay(q, Add(r, m, at), now, m)
    ensures QuotaHas(Add(r, m, at), m, at)
  {
  }

  lemma EffectStays(q: Quota, now: nat, m: Member, f: Effect)
    ensures OthersStay(q, QuotaAfter(q, m, f), now, m)
    ensures f.ChargeUntil? ==> QuotaHas(QuotaAfter(q, m, f), m, f.at)
  {
  }

  /** The session of `id` is live no longer, or it is charged in the new sets. */
  lemma ChargedIn(t: Server, id: nat, r: Quota)
    requires id in t.uploads && id in t.owners && QuotaFor(t, t.owners[id]) == r
    requires Live(t, id) ==>
               var u := t.uploads[id];
               t.now < u.keys.session.expiry && QuotaHas(r, MemberOf(id, u), u.keys.session.expiry)
    ensures Charged(t, id)
  {
  }

  lemma ChargedOut(s: Server, id: nat)
    requires id in s.uploads && id in s.owners && Charged(s, id)
    ensures Live(s, id) ==>
              var u := s.uploads[id];
              && s.now < u.keys.session.expiry
              && QuotaHas(QuotaFor(s, s.owners[id]), MemberOf(id, u), u.keys.session.expiry)
  {
  }

  /** A step that changes neither keys, sizes, owners nor quota sets keeps all charges. */
  lemma SameCharges(s: Server, t: Server, cfg: Config)
    requires Sane(s) && (forall x <- s.uploads :: Charged(s, x)) && WithinLimits(s, cfg.limits)
    requires t.now == s.now && t.owners == s.owners && t.uploads.Keys == s.uploads.Keys
    requires t.global == s.global && t.device == s.device && t.collector == s.collector
    requires forall x <- s.uploads :: t.uploads[x].keys == s.uploads[x].keys && t.uploads[x].meta == s.uploads[x].meta
    ensures (forall x <- t.uploads :: x in t.owners && Charged(t, x)) && WithinLimits(t, cfg.limits)
  {
    hide WellFormed;
    forall x <- t.uploads
      ensures x in t.owners && Charged(t, x)
    {
      assert Charged(s, x);
    }
  }

  lemma AbandonQuota(s: Server, cfg: Config, id: nat)
    requires Sane(s) && (forall x <- s.uploads :: Charged(s, x)) && WithinLimits(s, cfg.limits)
    ensures var t := ApplyAbandon(s, id);
            (forall x <- t.uploads :: x in t.owners && Charged(t, x)) && WithinLimits(t, cfg.limits)
  {
    hide Charged, WithinLimits, WellFormed;
    SameCharges(s, ApplyAbandon(s, id), cfg);
  }

  lemma CreateQuota(s: Server, cfg: Config, id: nat, delivery: Delivery)
    requires ValidConfig(cfg) && Sane(s)
    requires (forall x <- s.uploads :: Charged(s, x)) && WithinLimits(s, cfg.limits)
    requires id in s.uploads && id !in s.created ==> s.uploads[id].keys.session.Absent?
    ensures var t := ApplyCreate(s, cfg, id, delivery);
            (forall x <- t.uploads :: x in t.owners && Charged(t, x)) && WithinLimits(t, cfg.limits)
  {
    hide WellFormed, WithinLimits, QuotaWithin, Admit, OthersStay, CleanAll, Add, Charged, QuotaHas;
    var t := ApplyCreate(s, cfg, id, delivery);
    if delivery == NotRun {
      SameCharges(s, t, cfg);
    } else if id in s.uploads && id !in s.created {
      var u := s.uploads[id];
      var o := s.owners[id];
      var q := CleanAll(QuotaFor(s, o), s.now);
      var m := MemberOf(id, u);
      var expires := s.now + cfg.ttl.session;
      QuotaForWithin(s, o, cfg.limits);
      CleanedWithin(QuotaFor(s, o), s.now, cfg.limits);
      CleanedStays(QuotaFor(s, o), s.now, m);
      AddedStays(QuotaFor(s, o), q, s.now, m, expires);
      if Admit(u.keys.session.Present?, q, u.meta.fileSize, cfg.limits) == Created {
        AdmittedWithin(q, m, expires, u.keys.session.Present?, cfg.limits);
        ChargedIn(t, id, Add(q, m, expires));
        QuotaReplaced(s, t, cfg, id, Add(q, m, expires));
      } else {
        ChargedIn(t, id, q);
        QuotaReplaced(s, t, cfg, id, q);
      }
    }
  }

  lemma StepCharged(u: Upload, q: Quota, m: Member, now: nat, ttl: Ttl, e: Event)
    requires Inv(u, now, ttl) && ttl.session > 0 && ttl.terminal > 0
    requires u.keys.session.Present? && u.keys.session.value.state != ARCHIVED ==>
               now < u.keys.session.expiry && QuotaHas(q, m, u.keys.session.expiry)
    ensures var v, f := Next(u, now, ttl, e), EffectOf(u, now, ttl, e);
            && v.meta == u.meta
            && (f.ChargeUntil? ==> QuotaHas(q, m, u.keys.session.expiry))
            && (v.keys.session.Present? && v.keys.session.value.state != ARCHIVED ==>
                  now < v.keys.session.expiry && QuotaHas(QuotaAfter(q, m, f), m, v.keys.session.expiry))
  {
    hide Inv, WellFormed, Next, EffectOf;
    StepEffect(u, now, ttl, e);
  }

  lemma StepQuota(s: Server, cfg: Config, id: nat, e: Event)
    requires ValidConfig(cfg) && ServerInv(s, cfg)
    ensures var t := ApplyStep(s, cfg, id, e);
            (forall x <- t.uploads :: x in t.owners && Charged(t, x)) && WithinLimits(t, cfg.limits)
  {
    hide Inv, WellFormed, RowIdsInv, Next, EffectOf, WithinLimits, QuotaWithin, OthersStay, Charged, QuotaAfter;
    var t := ApplyStep(s, cfg, id, e);
    if id in s.uploads && !(e.CompleterInsert? && e.freshId != s.nextArchiveId) {
      var u := s.uploads[id];
      var o := s.owners[id];
      var m := MemberOf(id, u);
      var f := EffectOf(u, s.now, cfg.ttl, e);
      var r := QuotaAfter(QuotaFor(s, o), m, f);
      ChargedOut(s, id);
      StepCharged(u, QuotaFor(s, o), m, s.now, cfg.ttl, e);
      QuotaForWithin(s, o, cfg.limits);
      EffectWithin(QuotaFor(s, o), m, f, cfg.limits);
      EffectStays(QuotaFor(s, o), s.now, m, f);
      ChargedIn(t, id, r);
      QuotaReplaced(s, t, cfg, id, r);
    }
  }

  lemma TickQuota(s: Server, cfg: Config, seconds: nat)
    requires ServerInv(s, cfg)
    ensures var t := ApplyTick(s, seconds);
            (forall x <- t.uploads :: x in t.owners && Charged(t, x)) && WithinLimits(t, cfg.limits)
  {
    hide Inv, WellFormed, RowIdsInv;
    var t := ApplyTick(s, seconds);
    forall x <- t.uploads
      ensures x in t.owners && Charged(t, x)
    {
      assert Charged(s, x);
    }
  }

  lemma AllocateQuota(s: Server, cfg: Config, id: nat, size: nat, chunk: nat, sha: Digest, owner: Owner)
    requires ServerInv(s, cfg)
    ensures var t := ApplyAllocate(s, id, size, chunk, sha, owner);
            (forall x <- t.uploads :: x in t.owners && Charged(t, x)) && WithinLimits(t, cfg.limits)
  {
    hide Inv, WellFormed, RowIdsInv, MetaFor;
    var t := ApplyAllocate(s, id, size, chunk, sha, owner);
    forall x <- t.uploads
      ensures x in t.owners && Charged(t, x)
    {
      assert x in s.uploads ==> Charged(s, x);
    }
  }

  /** One server step keeps everything: uploads, archive ids and quotas. */
  lemma ApplyInv(s: Server, cfg: Config, ev: ServerEvent)
    requires ValidConfig(cfg) && ServerInv(s, cfg)
    ensures ServerInv(Apply(s, cfg, ev), cfg) && AllKept(s, Apply(s, cfg, ev))
  {
    hide AllKept, ApplyAllocate, ApplyCreate, ApplyAbandon, ApplyStep, ApplyTick, RowIdsInv, Charged, WithinLimits;
    ApplyUploads(s, cfg, ev);
    ApplyRowIds(s, cfg, ev);
    match ev
    case Allocate(id, size, chunk, sha, owner) => AllocateQuota(s, cfg, id, size, chunk, sha, owner);
    case CreateSession(id, delivery) => CreateQuota(s, cfg, id, delivery);
    case Abandon(id) => AbandonQuota(s, cfg, id);
    case Step(id, e) => StepQuota(s, cfg, id, e);
    case Tick(seconds) => TickQuota(s, cfg, seconds);
  }
}
