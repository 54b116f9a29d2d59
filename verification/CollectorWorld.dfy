// The Collector and the server together: what a task marked DONE, and a task not yet done, promise.

module CollectorWorld {
  import opened Common
  import UploadProtocol
  import opened UploadServer
  import opened CollectorTask

  // ---------------------------------------------------------------- state

  /** Between two steps of the agent: idle, about to save a task, about to remove a payload. */
  datatype Phase = Resting | MustSave(id: nat) | MustRemove(id: nat)

  datatype World = World(
    server: Server,
    states: map<nat, Task>,
    files: map<nat, Bytes>,
    running: bool,
    tasks: map<nat, Task>,
    phase: Phase,
    // history: the payload each task was created from
    snapshot: map<nat, Bytes>)

  datatype WorldEvent =
    | Serve(ev: ServerEvent)
    | Start
    | Crash
    | SnapshotPayload(id: nat, content: Bytes)
    | NewTask(id: nat, chunkSize: nat)
    | NewFailedTask(id: nat, task: Task)
    | Pass(id: nat, calls: Calls, now: nat)
    | GiveUp(id: nat, code: string)
    | SaveTask
    | Remove
    | RemoveOld(id: nat)

  datatype Setup = Setup(server: Config, retry: RetryConfig)

  /** The first call of a pass succeeded only if the server said so: a created session has the
      announced size and digest; a completed one was answered with that archive id. */
  ghost predicate Honest(s: Server, t: Task, r: CallResult) {
    r.status == Success ==>
      && (t.state == READY ==>
            && r.uploadId in s.uploads
            && s.uploads[r.uploadId].meta.sha == t.sha && s.uploads[r.uploadId].meta.fileSize == t.fileSize)
      && (t.state == COMPLETING ==>
            && t.uploadId.Some? && t.uploadId.value in s.uploads
            && exists k <- s.uploads[t.uploadId.value].completers ::
                 s.uploads[t.uploadId.value].completers[k] == UploadProtocol.Replied(r.archiveId))
  }

  ghost function Move(w: World, c: Setup, ev: WorldEvent): World
    requires Sane(w.server)
  {
    match ev
    case Serve(e) => w.(server := Apply(w.server, c.server, e))
    case Start => if w.running then w else w.(running := true, tasks := w.states, phase := Resting)
    case Crash => w.(running := false, phase := Resting)
    case SnapshotPayload(id, content) =>
      if w.running && w.phase == Resting && id !in w.tasks then w.(files := w.files[id := content]) else w
    case NewTask(id, chunk) =>
      if w.running && w.phase == Resting && id !in w.tasks && id in w.files && w.files[id] != [] && chunk > 0 then
        var t := Task(READY, Sha256(w.files[id]), |w.files[id]|, None, chunk, 0, 0, 0, "", 0);
        w.(tasks := w.tasks[id := t], phase := MustSave(id), snapshot := w.snapshot[id := w.files[id]])
      else w
    case NewFailedTask(id, t) =>
      if w.running && w.phase == Resting && id !in w.tasks && t.state == FAILED then
        w.(tasks := w.tasks[id := t], phase := MustSave(id))
      else w
    case Pass(id, calls, now) =>
      if w.running && w.phase == Resting && id in w.tasks && Active(w.tasks[id]) && w.tasks[id].nextAttempt <= now
         && Honest(w.server, w.tasks[id], calls.first)
      then w.(tasks := w.tasks[id := AfterPass(w.tasks[id], calls, c.retry, now)], phase := MustSave(id))
      else w
    case GiveUp(id, code) =>
      if w.running && w.phase == Resting && id in w.tasks && Active(w.tasks[id])
      then w.(tasks := w.tasks[id := Failed(w.tasks[id], code)], phase := MustSave(id))
      else w
    case SaveTask =>
      if w.running && w.phase.MustSave? && w.phase.id in w.tasks then
        var id := w.phase.id;
        w.(states := w.states[id := w.tasks[id]],
           phase := if w.tasks[id].state == DONE then MustRemove(id) else Resting)
      else w
    case Remove =>
      if w.running && w.phase.MustRemove? then w.(files := w.files - {w.phase.id}, phase := Resting) else w
    case RemoveOld(id) =>
      // initialize() removes the payloads of tasks loaded as DONE
      if w.running && w.phase == Resting && id in w.tasks && w.tasks[id].state == DONE
      then w.(files := w.files - {id})
      else w
  }

  // ---------------------------------------------------------------- invariant

  /** Task `id` may rely on its payload, and its upload belongs to it. */
  ghost predicate TaskInv(w: World, id: nat, t: Task) {
    && (t.state != FAILED ==> id in w.snapshot && t.sha == Sha256(w.snapshot[id]) && t.fileSize == |w.snapshot[id]|)
    && (Active(t) ==> id in w.files && w.files[id] == w.snapshot[id])
    && (t.state == UPLOADING || t.state == COMPLETING || t.state == DONE ==>
          && t.uploadId.Some? && t.uploadId.value in w.server.uploads
          && w.server.uploads[t.uploadId.value].meta.sha == t.sha)
    && (t.state == DONE ==>
          && w.server.uploads[t.uploadId.value].rows != []
          && w.server.uploads[t.uploadId.value].rows[0].archiveId == t.archiveId)
  }

  ghost predicate WorldInv(w: World, c: Setup) {
    && ServerInv(w.server, c.server)
    && (forall id <- w.states :: TaskInv(w, id, w.states[id]))
    && (w.running ==>
          match w.phase
          case Resting => w.tasks == w.states
          case MustSave(id) =>
            && id in w.tasks && w.tasks == w.states[id := w.tasks[id]]
            && TaskInv(w, id, w.tasks[id])
          case MustRemove(id) => w.tasks == w.states && id in w.states && w.states[id].state == DONE)
  }

  lemma ServeKeepsTask(w: World, c: Setup, e: ServerEvent, id: nat, t: Task)
    requires ValidConfig(c.server) && ServerInv(w.server, c.server) && TaskInv(w, id, t)
    ensures ServerInv(Apply(w.server, c.server, e), c.server)
    ensures TaskInv(w.(server := Apply(w.server, c.server, e)), id, t)
  {
    ApplyInv(w.server, c.server, e);
    hide ServerInv, Apply;
    if t.uploadId.Some? && t.uploadId.value in w.server.uploads {
      assert UploadProtocol.Keeps(w.server.uploads[t.uploadId.value],
                                  Apply(w.server, c.server, e).uploads[t.uploadId.value]);
    }
  }

  lemma ServeInv(w: World, c: Setup, e: ServerEvent)
    requires ValidConfig(c.server) && WorldInv(w, c)
    ensures WorldInv(Move(w, c, Serve(e)), c)
  {
    assert Sane(w.server);
    hide ServerInv, Apply, TaskInv;
    var v := Move(w, c, Serve(e));
    ApplyInv(w.server, c.server, e);
    forall id <- w.states
      ensures TaskInv(v, id, w.states[id])
    {
      ServeKeepsTask(w, c, e, id, w.states[id]);
    }
    if w.running && w.phase.MustSave? {
      ServeKeepsTask(w, c, e, w.phase.id, w.tasks[w.phase.id]);
    }
  }

  /** A completer that answered found the row. */
  lemma ReplyMeansRow(s: Server, c: Config, id: nat, k: nat)
    requires ServerInv(s, c) && id in s.uploads && k in s.uploads[id].completers
    requires s.uploads[id].completers[k].Replied?
    ensures s.uploads[id].rows != [] && s.uploads[id].rows[0].archiveId == s.uploads[id].completers[k].archiveId
  {
    hide RowIdsInv, Charged, WithinLimits;
    assert UploadProtocol.Inv(s.uploads[id], s.now, c.ttl);
    assert UploadProtocol.CompleterInv(s.uploads[id], s.uploads[id].completers[k]);
  }

  /** The pass: a task goes to DONE only with the archive id of its own upload's row. */
  lemma PassTask(w: World, c: Setup, id: nat, calls: Calls, now: nat)
    requires WorldInv(w, c) && id in w.tasks && Active(w.tasks[id]) && TaskInv(w, id, w.tasks[id])
    requires Honest(w.server, w.tasks[id], calls.first)
    ensures TaskInv(w, id, AfterPass(w.tasks[id], calls, c.retry, now))
  {
    hide ChunkOutcome, DelayOf, ServerInv, Sane;
    var t := w.tasks[id];
    if t.state == COMPLETING && calls.first.status == Success {
      var u := w.server.uploads[t.uploadId.value];
      var k :| k in u.completers && u.completers[k] == UploadProtocol.Replied(calls.first.archiveId);
      ReplyMeansRow(w.server, c.server, t.uploadId.value, k);
    }
  }

  /** A change of one file or one snapshot of a task nobody saved yet touches no saved task. */
  lemma OtherTasks(w: World, v: World, id: nat)
    requires v.server == w.server && v.states == w.states && id !in w.states
    requires v.files.Keys + {id} == w.files.Keys + {id} && v.snapshot.Keys + {id} == w.snapshot.Keys + {id}
    requires forall x <- w.files :: x != id ==> x in v.files && v.files[x] == w.files[x]
    requires forall x <- w.snapshot :: x != id ==> x in v.snapshot && v.snapshot[x] == w.snapshot[x]
    requires forall x <- w.states :: TaskInv(w, x, w.states[x])
    ensures forall x <- v.states :: TaskInv(v, x, v.states[x])
  {
    forall x <- v.states
      ensures TaskInv(v, x, v.states[x])
    {
      assert TaskInv(w, x, w.states[x]);
    }
  }

  lemma RemovedPayload(w: World, id: nat)
    requires forall x <- w.states :: TaskInv(w, x, w.states[x])
    requires id in w.states ==> w.states[id].state == DONE
    ensures var v := w.(files := w.files - {id}, phase := Resting);
            forall x <- v.states :: TaskInv(v, x, v.states[x])
  {
    var v := w.(files := w.files - {id}, phase := Resting);
    forall x <- v.states
      ensures TaskInv(v, x, v.states[x])
    {
      assert TaskInv(w, x, w.states[x]);
    }
  }

  /** Nothing a task relies on depends on the agent's own table or phase. */
  lemma SameGround(w: World, v: World)
    requires v.server == w.server && v.files == w.files && v.snapshot == w.snapshot
    ensures forall id: nat, t: Task :: TaskInv(w, id, t) ==> TaskInv(v, id, t)
  {
    hide Active;
  }

  /** The agent stores a payload or starts a task for it. */
  lemma NewInv(w: World, c: Setup, ev: WorldEvent)
    requires WorldInv(w, c) && Sane(w.server) && (ev.SnapshotPayload? || ev.NewTask?)
    ensures WorldInv(Move(w, c, ev), c)
  {
    hide ServerInv, Sane, AfterPass, Honest;
    var v := Move(w, c, ev);
    if v != w {
      OtherTasks(w, v, ev.id);
    }
  }

  lemma PassInv(w: World, c: Setup, id: nat, calls: Calls, now: nat)
    requires WorldInv(w, c) && Sane(w.server)
    ensures WorldInv(Move(w, c, Pass(id, calls, now)), c)
  {
    var v := Move(w, c, Pass(id, calls, now));
    SameGround(w, v);
    if v != w {
      PassTask(w, c, id, calls, now);
    }
    hide ServerInv, Sane, AfterPass, Honest, TaskInv;
  }

  lemma RemoveInv(w: World, c: Setup, ev: WorldEvent)
    requires WorldInv(w, c) && Sane(w.server) && (ev.Remove? || ev.RemoveOld?)
    ensures WorldInv(Move(w, c, ev), c)
  {
    hide ServerInv, Sane, AfterPass, Honest, TaskInv;
    var v := Move(w, c, ev);
    if v != w {
      RemovedPayload(w, if ev.Remove? then w.phase.id else ev.id);
    }
  }

  lemma RestInv(w: World, c: Setup, ev: WorldEvent)
    requires WorldInv(w, c) && Sane(w.server) && !ev.Serve?
    requires !(ev.SnapshotPayload? || ev.NewTask? || ev.Pass? || ev.Remove? || ev.RemoveOld?)
    ensures WorldInv(Move(w, c, ev), c)
  {
    hide ServerInv, Sane, AfterPass, Honest;
    SameGround(w, Move(w, c, ev));
  }

  lemma AgentInv(w: World, c: Setup, ev: WorldEvent)
    requires WorldInv(w, c) && !ev.Serve?
    requires Sane(w.server)
    ensures WorldInv(Move(w, c, ev), c)
  {
    hide *;
    match ev
    case SnapshotPayload(_, _) => NewInv(w, c, ev);
    case NewTask(_, _) => NewInv(w, c, ev);
    case Pass(id, calls, now) => PassInv(w, c, id, calls, now);
    case Remove => RemoveInv(w, c, ev);
    case RemoveOld(_) => RemoveInv(w, c, ev);
    case _ => RestInv(w, c, ev);
  }

  // ---------------------------------------------------------------- runs

  ghost predicate Initial(w: World) {
    w.server == BOOT && w.states == map[] && !w.running
  }

  ghost function Runs(w: World, c: Setup, evs: seq<WorldEvent>): (v: World)
    requires Initial(w)
    ensures Sane(v.server)
  {
    if evs == [] then w
    else
      var before := Runs(w, c, evs[..|evs| - 1]);
      MoveSane(before, c, evs[|evs| - 1]);
      Move(before, c, evs[|evs| - 1])
  }

  lemma MoveSane(w: World, c: Setup, ev: WorldEvent)
    requires Sane(w.server)
    ensures Sane(Move(w, c, ev).server)
  {
    hide Sane, Apply, AfterPass, Honest;
    if ev.Serve? {
      ApplySane(w.server, c.server, ev.ev);
    }
  }

  lemma InitialInv(w: World, c: Setup)
    requires Initial(w)
    ensures WorldInv(w, c)
  {
  }

  lemma MoveInv(w: World, c: Setup, ev: WorldEvent)
    requires ValidConfig(c.server) && WorldInv(w, c)
    ensures Sane(w.server) && WorldInv(Move(w, c, ev), c)
  {
    assert Sane(w.server);
    hide ServerInv, Move, TaskInv;
    if ev.Serve? {
      ServeInv(w, c, ev.ev);
    } else {
      AgentInv(w, c, ev);
    }
  }

  lemma {:induction false} RunsInv(w: World, c: Setup, evs: seq<WorldEvent>)
    requires ValidConfig(c.server) && Initial(w)
    ensures WorldInv(Runs(w, c, evs), c)
  {
    hide WorldInv, Move;
    if evs == [] {
      InitialInv(w, c);
    } else {
      RunsInv(w, c, evs[..|evs| - 1]);
      MoveInv(Runs(w, c, evs[..|evs| - 1]), c, evs[|evs| - 1]);
    }
  }

  /** Over every run of agent and server, with crashes of either anywhere: a task saved as DONE has
      exactly one archive row for its upload, with the saved id, whose path holds byte for byte the
      payload the task was created from; and a task saved as READY, UPLOADING or COMPLETING still has
      that payload in the spool. */
  lemma DoneMeansArchived(w: World, c: Setup, evs: seq<WorldEvent>, id: nat)
    requires ValidConfig(c.server) && Initial(w) && id in Runs(w, c, evs).states
    ensures var v := Runs(w, c, evs);
            var t := v.states[id];
            && (t.state == DONE ==>
                  && id in v.snapshot && t.uploadId.Some? && t.uploadId.value in v.server.uploads
                  && var u := v.server.uploads[t.uploadId.value];
                     && |u.rows| == 1 && u.rows[0].archiveId == t.archiveId
                     && u.place == UploadProtocol.At(u.rows[0].path) && u.file == v.snapshot[id])
            && (Active(t) ==> id in v.snapshot && id in v.files && v.files[id] == v.snapshot[id])
  {
    hide Runs;
    RunsInv(w, c, evs);
    var v := Runs(w, c, evs);
    var t := v.states[id];
    assert TaskInv(v, id, t);
    if t.state == DONE {
      var u := v.server.uploads[t.uploadId.value];
      assert UploadProtocol.Inv(u, v.server.now, c.server.ttl);
      assert UploadProtocol.RowsInv(u) && u.rows[0] in u.rows;
      assert Sha256(u.file) == Sha256(v.snapshot[id]);
    }
  }

  // ---------------------------------------------------------------- failed tasks

  /** The agent knows the task as FAILED, or has saved it so. */
  predicate FailedIn(w: World, id: nat) {
    || (id in w.states && w.states[id].state == FAILED)
    || (w.running && id in w.tasks && w.tasks[id].state == FAILED)
  }

  /** What makes a task FAILED: its source cannot be taken over or has changed, its device is not configured, or the
      answer that decides a pass is neither success, nor worth a retry, nor a lost session found by the first call. */
  ghost predicate FailsTask(w: World, ev: WorldEvent, id: nat) {
    && w.running && w.phase == Resting
    && match ev
       case NewFailedTask(x, t) => x == id && id !in w.tasks && t.state == FAILED
       case GiveUp(x, _) => x == id && id in w.tasks && Active(w.tasks[id])
       case Pass(x, calls, now) =>
         && x == id && id in w.tasks && Active(w.tasks[id]) && w.tasks[id].nextAttempt <= now
         && Honest(w.server, w.tasks[id], calls.first)
         && (!calls.deviceKnown || Rejected(w.tasks[id], calls))
       case _ => false
  }

  /** A step makes a task FAILED in the table exactly when it is such an event. */
  lemma StepFails(w: World, c: Setup, ev: WorldEvent, id: nat)
    requires Sane(w.server)
    ensures FailsTask(w, ev, id) ==> FailedIn(Move(w, c, ev), id)
    ensures FailedIn(Move(w, c, ev), id) ==> FailedIn(w, id) || FailsTask(w, ev, id)
  {
    hide Sane, Apply, Honest, AfterPass, Deciding;
    if ev.Pass? && ev.id in w.tasks && Active(w.tasks[ev.id]) {
      PassFails(w.tasks[ev.id], ev.calls, c.retry, ev.now);
    }
  }

  lemma PassFails(t: Task, calls: Calls, c: RetryConfig, now: nat)
    requires Active(t)
    ensures AfterPass(t, calls, c, now).state == FAILED <==> !calls.deviceKnown || Rejected(t, calls)
  {
    hide Rejected, ChunkOutcome, DelayOf;
    if calls.deviceKnown {
      PassSays(t, calls, c, now);
    }
  }

  /** Over every run, a task that is saved as FAILED was made so by such an event: no task fails otherwise. */
  lemma {:induction false} FailedHasCause(w: World, c: Setup, evs: seq<WorldEvent>, id: nat)
    requires Initial(w) && FailedIn(Runs(w, c, evs), id)
    ensures exists k :: 0 <= k < |evs| && FailsTask(Runs(w, c, evs[..k]), evs[k], id)
  {
    hide Move, Initial, FailsTask;
    if evs == [] {
      NoneFailed(w, id);
    } else {
      var n := |evs| - 1;
      var before := Runs(w, c, evs[..n]);
      StepFails(before, c, evs[n], id);
      if FailedIn(before, id) {
        FailedHasCause(w, c, evs[..n], id);
        var k :| 0 <= k < n && FailsTask(Runs(w, c, evs[..n][..k]), evs[..n][k], id);
        assert evs[..n][..k] == evs[..k];
        assert FailsTask(Runs(w, c, evs[..k]), evs[k], id);
      }
    }
  }

  lemma NoneFailed(w: World, id: nat)
    requires Initial(w)
    ensures !FailedIn(w, id)
  {
  }

  // ---------------------------------------------------------------- final tasks

  /** Only a task that is new or still active is about to be saved. */
  predicate SavesActive(w: World) {
    w.running && w.phase.MustSave? && w.phase.id in w.states ==> Active(w.states[w.phase.id])
  }

  lemma FinalStep(w: World, c: Setup, ev: WorldEvent, id: nat)
    requires ValidConfig(c.server) && WorldInv(w, c) && SavesActive(w)
    ensures Sane(w.server) && SavesActive(Move(w, c, ev))
    ensures id in w.states && !Active(w.states[id]) ==>
              id in Move(w, c, ev).states && Move(w, c, ev).states[id] == w.states[id]
  {
    assert Sane(w.server);
    hide ServerInv, Sane, Apply, Honest, AfterPass, TaskInv;
  }

  lemma {:induction false} RunsSaveActive(w: World, c: Setup, evs: seq<WorldEvent>)
    requires ValidConfig(c.server) && Initial(w)
    ensures SavesActive(Runs(w, c, evs))
  {
    hide Move, WorldInv;
    if evs != [] {
      var n := |evs| - 1;
      RunsSaveActive(w, c, evs[..n]);
      RunsInv(w, c, evs[..n]);
      FinalStep(Runs(w, c, evs[..n]), c, evs[n], 0);
    }
  }

  /** Over every run, a task that is saved as DONE or FAILED never changes again. */
  lemma {:induction false} FinalStays(w: World, c: Setup, evs: seq<WorldEvent>, n: nat, id: nat)
    requires ValidConfig(c.server) && Initial(w) && n <= |evs|
    requires id in Runs(w, c, evs[..n]).states && !Active(Runs(w, c, evs[..n]).states[id])
    ensures id in Runs(w, c, evs).states && Runs(w, c, evs).states[id] == Runs(w, c, evs[..n]).states[id]
    decreases |evs|
  {
    hide Move, WorldInv, SavesActive, Active;
    if n == |evs| {
      assert evs[..n] == evs;
    } else {
      var k := |evs| - 1;
      assert evs[..k][..n] == evs[..n];
      FinalStays(w, c, evs[..k], n, id);
      RunsInv(w, c, evs[..k]);
      RunsSaveActive(w, c, evs[..k]);
      FinalStep(Runs(w, c, evs[..k]), c, evs[k], id);
    }
  }
}
