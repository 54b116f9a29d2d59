// A session that dies between the query of a pass and one of its chunks: a run in which the task fails for good.

module CollectorLoss {
  import opened CollectorTask
  import opened CollectorWorld
  import opened Common
  import UploadScripts
  import opened UploadServer
  import opened UploadStranding

  /** Some run of agent and server ends here. */
  ghost predicate Ends(c: Setup, v: World) {
    exists w: World, evs: seq<WorldEvent> :: Initial(w) && Runs(w, c, evs) == v
  }

  lemma Go(c: Setup, v: World, ev: WorldEvent)
    requires Ends(c, v)
    ensures Sane(v.server) && Ends(c, Move(v, c, ev))
  {
    hide Move, Initial, Sane;
    var w: World, evs: seq<WorldEvent> :| Initial(w) && Runs(w, c, evs) == v;
    assert (evs + [ev])[..|evs|] == evs;
    assert Runs(w, c, evs + [ev]) == Move(v, c, ev);
  }

  lemma Begin(c: Setup) returns (v: World)
    ensures Ends(c, v) && v == World(BOOT, map[], map[], false, map[], Resting, map[])
  {
    v := World(BOOT, map[], map[], false, map[], Resting, map[]);
    assert Initial(v) && Runs(v, c, []) == v;
  }

  /** The agent has taken over the payload and saved its task. */
  lemma TaskSaved(c: Setup) returns (v: World)
    ensures Ends(c, v)
    ensures var t := Task(READY, Sha256([7]), 1, None, 1, 0, 0, 0, "", 0);
            v == World(BOOT, map[0 := t], map[0 := [7]], true, map[0 := t], Resting, map[0 := [7]])
  {
    hide Ends, Honest, AfterPass, Apply;
    v := Begin(c);
    Go(c, v, Start);
    v := v.(running := true, tasks := map[]);
    Go(c, v, SnapshotPayload(0, [7]));
    v := v.(files := map[0 := [7]]);
    Go(c, v, NewTask(0, 1));
    var t := Task(READY, Sha256([7]), 1, None, 1, 0, 0, 0, "", 0);
    v := v.(tasks := map[0 := t], phase := MustSave(0), snapshot := map[0 := [7]]);
    Go(c, v, SaveTask);
    v := v.(states := map[0 := t], phase := Resting);
  }

  /** The server creates a session for a file of one byte. */
  lemma Created(c: Setup, owner: Owner) returns (v: World)
    requires RoomForOne(c.server.limits)
    ensures Ends(c, v) && v.server.now == 0 && 0 in v.server.uploads
    ensures v.server.uploads[0] == OneByte(c.server.ttl)
    ensures var t := Task(READY, Sha256([7]), 1, None, 1, 0, 0, 0, "", 0);
            v == World(v.server, map[0 := t], map[0 := [7]], true, map[0 := t], Resting, map[0 := [7]])
  {
    hide Ends, Honest, AfterPass, Apply, OneByte;
    v := TaskSaved(c);
    var allocate, create := Allocate(0, 1, 1, Sha256([7]), owner), CreateSession(0, Answered);
    Go(c, v, Serve(allocate));
    AllocateOne(c, owner);
    v := v.(server := Apply(BOOT, c.server, allocate));
    Go(c, v, Serve(create));
    CreateIs(v.server, c, create);
    v := v.(server := Apply(v.server, c.server, create));
  }

  lemma AllocateOne(c: Setup, owner: Owner)
    ensures Sane(BOOT)
    ensures var s := Apply(BOOT, c.server, Allocate(0, 1, 1, Sha256([7]), owner));
            && s.uploads == map[0 := OneByte(c.server.ttl).(keys := UploadScripts.EMPTY_KEYS)]
            && s.owners == map[0 := owner] && s.now == 0 && s.created == {}
            && s.global == map[] && s.device == map[] && s.collector == map[]
  {
    OneByteMeta();
    assert seq(1, _ => 0) == [0];
  }

  lemma CreateIs(s: Server, c: Setup, create: ServerEvent)
    requires Sane(s) && RoomForOne(c.server.limits) && create == CreateSession(0, Answered)
    requires s.uploads == map[0 := OneByte(c.server.ttl).(keys := UploadScripts.EMPTY_KEYS)] && 0 in s.owners
    requires s.owners == map[0 := s.owners[0]] && s.now == 0 && s.created == {}
    requires s.global == map[] && s.device == map[] && s.collector == map[]
    ensures var t := Apply(s, c.server, create);
            t.now == 0 && 0 in t.uploads && t.uploads[0] == OneByte(c.server.ttl)
  {
    hide Sane, ApplyCreate;
    CreateOne(s, c.server, s.owners[0]);
  }

  const QUERY := CallResult(Success, "", 0, 1, 1, [0], 0)
  const LOST := CallResult(SessionMissing, "UPLOAD_NOT_FOUND", 0, 0, 0, [], 0)

  /** The task is being uploaded. */
  lemma Uploading(c: Setup, owner: Owner) returns (v: World)
    requires RoomForOne(c.server.limits)
    ensures Ends(c, v) && v.server.now == 0 && 0 in v.server.uploads
    ensures v.server.uploads[0] == OneByte(c.server.ttl)
    ensures var t := Task(UPLOADING, Sha256([7]), 1, Some(0), 1, 1, 0, 0, "", 0);
            v == World(v.server, map[0 := t], map[0 := [7]], true, map[0 := t], Resting, map[0 := [7]])
  {
    hide Ends, Apply, ChunkOutcome, Sane;
    v := Created(c, owner);
    var calls := Calls(true, QUERY, _ => LOST);
    Go(c, v, Pass(0, calls, 0));
    var t := Task(UPLOADING, Sha256([7]), 1, Some(0), 1, 1, 0, 0, "", 0);
    assert AfterPass(v.tasks[0], calls, c.retry, 0) == t;
    assert Honest(v.server, v.tasks[0], calls.first);
    assert v.tasks[0 := t] == map[0 := t];
    v := v.(tasks := map[0 := t], phase := MustSave(0));
    Go(c, v, SaveTask);
    assert v.states[0 := t] == map[0 := t];
    v := v.(states := map[0 := t], phase := Resting);
  }

  /** The session dies after the query and before the chunk. The task is FAILED, its payload is still in the spool,
      there is no session and no row, and the task never changes again (`CollectorWorld.FinalStays`). */
  lemma SessionLossCanFail(c: Setup, owner: Owner)
    requires RoomForOne(c.server.limits)
    ensures exists w: World, evs: seq<WorldEvent> ::
              && Initial(w)
              && var v := Runs(w, c, evs);
                 && 0 in v.states && v.states[0].state == FAILED && v.states[0].lastError == "UPLOAD_NOT_FOUND"
                 && 0 in v.files && v.files[0] == [7]
                 && 0 in v.server.uploads && v.server.uploads[0].keys.session.Absent? && v.server.uploads[0].rows == []
  {
    hide Ends, ChunkOutcome, Sane, Runs;
    var v := Uploading(c, owner);
    var t := v.tasks[0];
    Go(c, v, Serve(Tick(c.server.ttl.session)));
    v := v.(server := Apply(v.server, c.server, Tick(c.server.ttl.session)));
    var calls := Calls(true, QUERY, _ => LOST);
    Go(c, v, Pass(0, calls, 0));
    OutcomeLost(t, calls, c.retry);
    assert Honest(v.server, t, calls.first);
    assert v.tasks[0 := Failed(t, "UPLOAD_NOT_FOUND")] == map[0 := Failed(t, "UPLOAD_NOT_FOUND")];
    v := v.(tasks := map[0 := Failed(t, "UPLOAD_NOT_FOUND")], phase := MustSave(0));
    Go(c, v, SaveTask);
    assert v.states[0 := v.tasks[0]] == v.tasks;
    v := v.(states := v.tasks, phase := Resting);
    Witness(c, v);
  }

  lemma OutcomeLost(t: Task, calls: Calls, retry: RetryConfig)
    requires t.state == UPLOADING && calls == Calls(true, QUERY, calls.chunk) && calls.chunk(0) == LOST
    ensures AfterPass(t, calls, retry, 0) == Failed(t, "UPLOAD_NOT_FOUND")
  {
    assert ChunkOutcome(QUERY, [0], calls.chunk) == LOST;
  }

  lemma Witness(c: Setup, v: World)
    requires Ends(c, v)
    ensures exists w: World, evs: seq<WorldEvent> :: Initial(w) && Runs(w, c, evs) == v
  {
  }
}
