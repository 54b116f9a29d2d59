// Two complete requests that bring different paths along strand a correct file: a run of the server from its start.

module UploadStranding {
  import opened ChunkLayout
  import opened Common
  import opened UploadGuarantees
  import opened UploadPaths
  import opened UploadProtocol
  import opened UploadRetry
  import opened UploadScripts
  import opened UploadServer

  /** Upload 0 is in this state after these events, at time 0, and its requests brought these paths along. */
  ghost predicate Reaches(cfg: Config, evs: seq<ServerEvent>, u: Upload, paths: set<string>) {
    var s := Run(cfg, evs);
    && s.now == 0 && 0 in s.uploads && s.uploads[0] == u && 0 in s.created
    && WellFormed(u) && Requested(evs, 0) == paths
  }

  /** One step more; a lookup brings its path along. */
  lemma Go(cfg: Config, evs: seq<ServerEvent>, u: Upload, paths: set<string>, e: Event)
    returns (more: seq<ServerEvent>, v: Upload)
    requires Reaches(cfg, evs, u, paths) && !e.CompleterInsert?
    ensures WellFormed(u) && WellFormed(v) && v == Next(u, 0, cfg.ttl, e)
    ensures Reaches(cfg, more, v, if e.CompleterLookup? then paths + {e.ownPath} else paths)
  {
    hide Next, QuotaAfter, EffectOf, WellFormed;
    more := evs + [Step(0, e)];
    assert more[..|more| - 1] == evs;
    v := Next(u, 0, cfg.ttl, e);
    NextWellFormed(u, 0, cfg.ttl, e);
    assert paths + {} == paths;
  }

  /** A one-byte upload right after its session was created. */
  function OneByte(ttl: Ttl): Upload {
    Upload(Meta(1, Sha256([7]), [0, 1]), EMPTY_KEYS.(session := Fresh(ttl.session)), [0], Temp,
           map[], map[], [], Idle, map[], {}, false)
  }

  ghost predicate RoomForOne(l: Limits) {
    l.maxActive > 0 && l.maxDevice > 0 && l.maxCollector > 0 && l.maxReserved > 0
  }

  lemma OneByteMeta()
    ensures MetaFor(1, 1, Sha256([7])) == Meta(1, Sha256([7]), [0, 1])
  {
    assert Starts(1, 1) == [0, 1];
  }

  lemma RunMore(cfg: Config, evs: seq<ServerEvent>, ev: ServerEvent)
    ensures Run(cfg, []) == BOOT
    ensures Run(cfg, evs + [ev]) == Apply(Run(cfg, evs), cfg, ev)
    ensures Requested(evs + [ev], 0) == Requested(evs, 0) + OwnPath(ev, 0)
  {
    hide Apply, OwnPath;
    assert (evs + [ev])[..|evs|] == evs;
  }

  lemma Started(cfg: Config, owner: Owner) returns (evs: seq<ServerEvent>)
    ensures var s := Run(cfg, evs);
            && s.uploads == map[0 := OneByte(cfg.ttl).(keys := EMPTY_KEYS)] && s.owners == map[0 := owner]
            && s.now == 0 && s.created == {} && s.global == map[] && s.device == map[] && s.collector == map[]
    ensures Requested(evs, 0) == {}
  {
    hide Starts, Run, Requested;
    OneByteMeta();
    var allocate := Allocate(0, 1, 1, Sha256([7]), owner);
    evs := [] + [allocate];
    RunMore(cfg, [], allocate);
    NoRequests();
    assert seq(1, _ => 0) == [0];
  }

  lemma NoRequests()
    ensures Requested([], 0) == {}
  {
  }

  lemma CreateOne(s: Server, cfg: Config, owner: Owner)
    requires Sane(s) && RoomForOne(cfg.limits) && s.now == 0 && s.created == {}
    requires s.uploads == map[0 := OneByte(cfg.ttl).(keys := EMPTY_KEYS)] && s.owners == map[0 := owner]
    requires s.global == map[] && s.device == map[] && s.collector == map[]
    ensures var t := ApplyCreate(s, cfg, 0, Answered);
            t.now == 0 && 0 in t.created && 0 in t.uploads && t.uploads[0] == OneByte(cfg.ttl)
  {
    hide Sane, Admit, CleanAll, Add, QuotaFor;
    EmptyAdmits(s, cfg, owner);
  }

  lemma OneByteFits(ttl: Ttl)
    ensures WellFormed(OneByte(ttl))
  {
  }

  lemma SessionCreated(cfg: Config, owner: Owner) returns (evs: seq<ServerEvent>)
    requires RoomForOne(cfg.limits)
    ensures Reaches(cfg, evs, OneByte(cfg.ttl), {})
  {
    hide Starts, Run, Requested, ApplyCreate, OneByte, WellFormed;
    evs := Started(cfg, owner);
    var create := CreateSession(0, Answered);
    CreateOne(Run(cfg, evs), cfg, owner);
    RunMore(cfg, evs, create);
    OneByteFits(cfg.ttl);
    evs := evs + [create];
  }

  lemma EmptyAdmits(s: Server, cfg: Config, owner: Owner)
    requires RoomForOne(cfg.limits) && s.global == map[] && s.device == map[] && s.collector == map[]
    ensures Admit(false, CleanAll(QuotaFor(s, owner), s.now), 1, cfg.limits) == UploadScripts.Created
  {
    assert CleanAll(QuotaFor(s, owner), s.now) == Quota(map[], map[], map[]);
    var none: ZSet := map[];
    assert none.Keys == {};
  }

  // ---------------------------------------------------------------- the chunk

  /** The chunk is granted to request 0. */
  lemma ChunkGranted(cfg: Config, owner: Owner) returns (evs: seq<ServerEvent>, u: Upload)
    requires RoomForOne(cfg.limits)
    ensures Reaches(cfg, evs, u, {})
    ensures u == OneByte(cfg.ttl).(
        writers := map[0 := Granted(0, [7])], registered := map[0 := Sha256([7])],
        keys := Keys(Fresh(cfg.ttl.session), Absent, Present(map[0 := Sha256([7])], cfg.ttl.session)))
  {
    hide Reaches, StepComplete, StepCleaner;
    evs := SessionCreated(cfg, owner);
    evs, u := Go(cfg, evs, OneByte(cfg.ttl), {}, WriterLookup(0, 0, [7]));
    assert u == OneByte(cfg.ttl).(writers := map[0 := Looked(0, [7])]);
    evs, u := Go(cfg, evs, u, {}, WriterBegin(0));
    assert u.writers == map[0 := Granted(0, [7])];
  }

  /** An upload of the byte 7 whose only chunk is finished. */
  ghost predicate Whole(u: Upload, ttl: Ttl) {
    && u.meta == Meta(1, Sha256([7]), [0, 1]) && u.file == [7] && u.place == Temp && u.rows == []
    && u.keys.session == Fresh(ttl.session) && BitsOf(u.keys) == {0}
  }

  lemma ChunkUploaded(cfg: Config, owner: Owner) returns (evs: seq<ServerEvent>, u: Upload)
    requires RoomForOne(cfg.limits)
    ensures Reaches(cfg, evs, u, {}) && Whole(u, cfg.ttl) && u.completers == map[]
  {
    hide Reaches, StepComplete, StepCleaner;
    evs, u := ChunkGranted(cfg, owner);
    evs, u := Go(cfg, evs, u, {}, WriterOpen(0));
    assert u.writers == map[0 := Writing(0, [7], 0)];
    assert [7][0..1] == [7] && Overwrite([0], 0, [7]) == [7];
    evs, u := Go(cfg, evs, u, {}, WriterPwrite(0, 1));
    assert u.writers == map[0 := Writing(0, [7], 1)] && u.file == [7];
    evs, u := Go(cfg, evs, u, {}, WriterFinish(0));
  }

  // ---------------------------------------------------------------- two complete requests

  /** Begin-complete freezes the open session under the request's path. */
  lemma Freezes(u: Upload, ttl: Ttl, k: nat, p: string, at: nat)
    requires WellFormed(u) && Whole(u, ttl) && k in u.completers && u.completers[k] == Chosen(p, at)
    ensures var v := Next(u, 0, ttl, CompleterBegin(k));
            && v == u.(completers := u.completers[k := Frozen(p, at)], keys := v.keys, frozen := true)
            && SessionIs(v, VERIFYING) && v.keys.session.value.relativePath == p
  {
    hide StepWriter, StepCleaner;
    assert |BitsOf(u.keys)| == 1 == Count(u.meta);
  }

  /** A second begin-complete may resume and changes no key. */
  lemma Resumes(u: Upload, ttl: Ttl, k: nat, p: string, at: nat)
    requires WellFormed(u) && SessionIs(u, VERIFYING) && k in u.completers && u.completers[k] == Chosen(p, at)
    ensures Next(u, 0, ttl, CompleterBegin(k)) == u.(completers := u.completers[k := Frozen(p, at)], frozen := true)
  {
    hide StepWriter, StepCleaner;
  }

  /** The file waits whole; request 1 has frozen the session under `p`, request 2 goes on with `q`. */
  ghost predicate BothFrozen(u: Upload, p: string, q: string) {
    && u.meta == Meta(1, Sha256([7]), [0, 1]) && u.file == [7] && u.place == Temp && u.rows == []
    && u.completers == map[1 := Frozen(p, 1), 2 := Frozen(q, 2)]
    && SessionIs(u, VERIFYING) && u.keys.session.value.relativePath == p
  }

  lemma BothFreeze(cfg: Config, owner: Owner, p: string, q: string) returns (evs: seq<ServerEvent>, u: Upload)
    requires RoomForOne(cfg.limits) && p != "" && q != ""
    ensures Reaches(cfg, evs, u, {p, q}) && BothFrozen(u, p, q)
  {
    hide Reaches, Next, StepWriter, StepCleaner;
    evs, u := ChunkUploaded(cfg, owner);
    evs, u := LookUp(cfg, evs, u, {}, 1, p);
    assert {} + {p} == {p} && {p} + {q} == {p, q};
    evs, u := LookUp(cfg, evs, u, {p}, 2, q);
    assert u.completers == map[1 := Chosen(p, 1), 2 := Chosen(q, 2)];
    Freezes(u, cfg.ttl, 1, p, 1);
    evs, u := Go(cfg, evs, u, {p, q}, CompleterBegin(1));
    Resumes(u, cfg.ttl, 2, q, 2);
    evs, u := Go(cfg, evs, u, {p, q}, CompleterBegin(2));
    assert u.completers == map[1 := Frozen(p, 1), 2 := Frozen(q, 2)];
  }

  /** Request `k` looks the open session up at time `k` and chooses its own path. */
  lemma LookUp(cfg: Config, evs: seq<ServerEvent>, u: Upload, paths: set<string>, k: nat, own: string)
    returns (more: seq<ServerEvent>, v: Upload)
    requires Reaches(cfg, evs, u, paths) && Whole(u, cfg.ttl) && k !in u.completers && k > 0 && own != ""
    ensures Reaches(cfg, more, v, paths + {own}) && Whole(v, cfg.ttl) && WellFormed(v)
    ensures v == u.(completers := u.completers[k := Chosen(own, k)])
  {
    hide Reaches, Next;
    more, v := Go(cfg, evs, u, paths, CompleterLookup(k, own, k));
    LookupStep(u, 0, cfg.ttl, k, own, k);
  }

  /** Request 2 verifies the file, moves it to its own path, and stops. */
  lemma SecondArchives(cfg: Config, evs: seq<ServerEvent>, u: Upload, p: string, q: string)
    returns (more: seq<ServerEvent>, v: Upload)
    requires Reaches(cfg, evs, u, {p, q}) && BothFrozen(u, p, q)
    ensures Reaches(cfg, more, v, {p, q})
    ensures v == u.(place := At(q), completers := map[1 := Frozen(p, 1), 2 := CompleterGone])
  {
    hide Reaches, Next, WellFormed;
    more, v := SecondReads(cfg, evs, u, p, q);
    VerdictStep(v, 0, cfg.ttl, 2, q, 2);
    more, v := Go(cfg, more, v, {p, q}, CompleterVerdict(2));
    RenameStep(v, 0, cfg.ttl, 2, q, 2);
    more, v := Go(cfg, more, v, {p, q}, CompleterRename(2));
    FailStep(v, 0, cfg.ttl, 2);
    more, v := Go(cfg, more, v, {p, q}, CompleterFail(2));
    assert v.completers == map[1 := Frozen(p, 1), 2 := CompleterGone];
  }

  lemma SecondReads(cfg: Config, evs: seq<ServerEvent>, u: Upload, p: string, q: string)
    returns (more: seq<ServerEvent>, v: Upload)
    requires Reaches(cfg, evs, u, {p, q}) && BothFrozen(u, p, q)
    ensures Reaches(cfg, more, v, {p, q}) && WellFormed(v)
    ensures v == u.(completers := map[1 := Frozen(p, 1), 2 := Reading(q, 2, false, [7])])
  {
    hide Reaches, Next;
    FindStep(u, 0, cfg.ttl, 2, q, 2);
    more, v := Go(cfg, evs, u, {p, q}, CompleterFind(2));
    StatStep(v, 0, cfg.ttl, 2, q, 2);
    more, v := Go(cfg, more, v, {p, q}, CompleterStat(2));
    OpenStep(v, 0, cfg.ttl, 2, q, 2);
    more, v := Go(cfg, more, v, {p, q}, CompleterOpen(2));
    ReadStep(v, 0, cfg.ttl, 2, q, 2, false);
    more, v := Go(cfg, more, v, {p, q}, CompleterRead(2, 1));
    assert v.completers == map[1 := Frozen(p, 1), 2 := Reading(q, 2, false, [7])];
  }

  /** For any two different paths, as two requests on either side of midnight choose them, there is a run from the
      start of the server that strands a complete file with the announced digest. */
  lemma TwoPathsCanStrand(cfg: Config, owner: Owner, p: string, q: string)
    requires RoomForOne(cfg.limits) && p != q && p != "" && q != ""
    ensures exists evs: seq<ServerEvent> ::
              && 0 in Run(cfg, evs).uploads && Requested(evs, 0) == {p, q}
              && var u := Run(cfg, evs).uploads[0];
                 Stranded(u, q) && SessionIs(u, VERIFYING) && u.meta.sha == Sha256(u.file)
  {
    hide Reaches;
    var evs, u := BothFreeze(cfg, owner, p, q);
    var more, v := SecondArchives(cfg, evs, u, p, q);
    assert Stranded(v, q);
    Reached(cfg, more, v, {p, q});
  }

  lemma Reached(cfg: Config, evs: seq<ServerEvent>, u: Upload, paths: set<string>)
    requires Reaches(cfg, evs, u, paths)
    ensures 0 in Run(cfg, evs).uploads && Run(cfg, evs).uploads[0] == u && Requested(evs, 0) == paths
  {
    hide Run, Requested;
  }
}
