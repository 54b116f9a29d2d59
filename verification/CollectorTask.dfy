// The Collector's task state machine: one pass over one task, and the retry delay.

module CollectorTask {
  import opened Common

  datatype TaskState = READY | UPLOADING | COMPLETING | DONE | FAILED

  datatype Task = Task(
    state: TaskState,
    sha: Digest,
    fileSize: nat,
    uploadId: Option<nat>,
    chunkSize: nat,
    chunkCount: nat,
    retryAttempts: nat,
    nextAttempt: nat,
    lastError: string,
    archiveId: nat)

  /** How the uploader classifies an HTTP exchange. */
  datatype CallStatus = Success | Retryable | PermanentFailure | SessionMissing

  datatype CallResult = CallResult(
    status: CallStatus,
    code: string,
    uploadId: nat,
    chunkSize: nat,
    chunkCount: nat,
    missing: seq<nat>,
    archiveId: nat)

  /** What one pass meets: whether the device is configured, and the network's answers to the first call
      and to the upload of each chunk. */
  datatype Calls = Calls(deviceKnown: bool, first: CallResult, chunk: nat -> CallResult)

  datatype RetryConfig = RetryConfig(baseDelay: nat, maxDelay: nat, maxSteps: nat)

  predicate Active(t: Task) {
    t.state == READY || t.state == UPLOADING || t.state == COMPLETING
  }

  // ---------------------------------------------------------------- retry delay

  function Pow2(n: nat): nat {
    if n == 0 then 1 else 2 * Pow2(n - 1)
  }

  /** The delay before attempt number `attempts`: doubled each time and cut at the maximum. */
  method BackoffDelay(c: RetryConfig, attempts: nat) returns (delay: nat)
    ensures delay == if attempts <= 1 then c.baseDelay else Min(c.baseDelay * Pow2(attempts - 1), c.maxDelay)
  {
    delay := c.baseDelay;
    var exponent := 1;
    while exponent < attempts
      invariant exponent == 1 || 1 < exponent <= attempts
      invariant delay == if exponent == 1 then c.baseDelay else Min(c.baseDelay * Pow2(exponent - 1), c.maxDelay)
    {
      assert c.baseDelay * Pow2(exponent) == 2 * (c.baseDelay * Pow2(exponent - 1));
      delay := Min(delay * 2, c.maxDelay);
      exponent := exponent + 1;
    }
  }

  function DelayOf(c: RetryConfig, attempts: nat): nat {
    if attempts <= 1 then c.baseDelay else Min(c.baseDelay * Pow2(attempts - 1), c.maxDelay)
  }

  // ---------------------------------------------------------------- one pass over one task

  function Retried(t: Task, c: RetryConfig, now: nat, code: string): Task {
    var attempts := Min(t.retryAttempts + 1, c.maxSteps);
    t.(retryAttempts := attempts, nextAttempt := now + DelayOf(c, attempts), lastError := code)
  }

  function Failed(t: Task, code: string): Task {
    t.(state := FAILED, lastError := code, nextAttempt := 0)
  }

  /** The session is gone on the server: start over with the same payload. */
  function Restarted(t: Task): Task {
    t.(uploadId := None, state := READY, retryAttempts := 0, lastError := "UPLOAD_SESSION_LOST")
  }

  /** The result the loop over missing chunks ends with: the first failure, or the query's success. */
  function ChunkOutcome(query: CallResult, missing: seq<nat>, answer: nat -> CallResult): CallResult {
    if missing == [] then query
    else if answer(missing[0]).status != Success then answer(missing[0])
    else ChunkOutcome(query, missing[1..], answer)
  }

  /** The task after one pass, given the network's answers. */
  function AfterPass(t: Task, calls: Calls, c: RetryConfig, now: nat): Task {
    var r := calls.first;
    if !calls.deviceKnown then Failed(t, "DEVICE_CONFIG_MISSING")
    else if t.state == READY && r.status == Success then
      t.(uploadId := Some(r.uploadId), chunkSize := r.chunkSize, chunkCount := r.chunkCount,
         state := UPLOADING, retryAttempts := 0, nextAttempt := 0, lastError := "")
    else if (t.state == UPLOADING || t.state == COMPLETING) && r.status == SessionMissing then
      Restarted(t)
    else if t.state == UPLOADING && r.status == Success
        && ChunkOutcome(r, r.missing, calls.chunk).status == Success then
      t.(state := COMPLETING, retryAttempts := 0, lastError := "")
    else if t.state == COMPLETING && r.status == Success then
      t.(state := DONE, archiveId := r.archiveId, retryAttempts := 0, nextAttempt := 0, lastError := "")
    else
      var last := if t.state == UPLOADING && r.status == Success then ChunkOutcome(r, r.missing, calls.chunk) else r;
      if !Active(t) then t
      else if last.status == Retryable then Retried(t, c, now, last.code)
      else Failed(t, last.code)
  }

  // ---------------------------------------------------------------- what a pass promises

  /** The upload of this missing chunk is the first that fails. */
  ghost predicate FirstToFail(missing: seq<nat>, answer: nat -> CallResult, i: nat) {
    && i < |missing| && answer(missing[i]).status != Success
    && forall j :: 0 <= j < i ==> answer(missing[j]).status == Success
  }

  /** The answer that decides a pass: that of the first chunk that fails, or else that of the first call. */
  ghost function Deciding(t: Task, calls: Calls): CallResult {
    if t.state == UPLOADING && calls.first.status == Success
       && exists i: nat :: FirstToFail(calls.first.missing, calls.chunk, i)
    then
      var i: nat :| FirstToFail(calls.first.missing, calls.chunk, i);
      calls.chunk(calls.first.missing[i])
    else calls.first
  }

  lemma {:induction false} OutcomeIs(query: CallResult, missing: seq<nat>, answer: nat -> CallResult)
    requires query.status == Success
    ensures ChunkOutcome(query, missing, answer).status == Success ==>
              ChunkOutcome(query, missing, answer) == query && forall i: nat :: !FirstToFail(missing, answer, i)
    ensures ChunkOutcome(query, missing, answer).status != Success ==>
              exists i: nat ::
                FirstToFail(missing, answer, i) && ChunkOutcome(query, missing, answer) == answer(missing[i])
  {
    if missing != [] && answer(missing[0]).status == Success {
      OutcomeIs(query, missing[1..], answer);
      var r := ChunkOutcome(query, missing[1..], answer);
      forall i: nat | FirstToFail(missing, answer, i)
        ensures FirstToFail(missing[1..], answer, i - 1)
      {
        forall j | 0 <= j < i - 1
          ensures answer(missing[1..][j]).status == Success
        {
          assert missing[1..][j] == missing[j + 1];
        }
      }
      if r.status != Success {
        var i: nat :| FirstToFail(missing[1..], answer, i) && r == answer(missing[1..][i]);
        assert missing[i + 1] == missing[1..][i];
        forall j | 0 <= j < i + 1
          ensures answer(missing[j]).status == Success
        {
          assert j > 0 ==> missing[j] == missing[1..][j - 1];
        }
        assert FirstToFail(missing, answer, i + 1);
      }
    } else if missing != [] {
      assert FirstToFail(missing, answer, 0);
    }
  }

  lemma OneFirst(missing: seq<nat>, answer: nat -> CallResult, i: nat, j: nat)
    requires FirstToFail(missing, answer, i) && FirstToFail(missing, answer, j)
    ensures i == j
  {
  }

  lemma DecidingIs(t: Task, calls: Calls)
    requires t.state == UPLOADING && calls.first.status == Success
    ensures Deciding(t, calls) == ChunkOutcome(calls.first, calls.first.missing, calls.chunk)
  {
    hide ChunkOutcome;
    OutcomeIs(calls.first, calls.first.missing, calls.chunk);
    var r := ChunkOutcome(calls.first, calls.first.missing, calls.chunk);
    if r.status != Success {
      var i: nat :| FirstToFail(calls.first.missing, calls.chunk, i) && r == calls.chunk(calls.first.missing[i]);
      forall j: nat | FirstToFail(calls.first.missing, calls.chunk, j)
        ensures i == j
      {
        OneFirst(calls.first.missing, calls.chunk, i, j);
      }
    }
  }

  /** The server has lost the session, and the first call of the pass says so. */
  predicate LostAtFirst(t: Task, calls: Calls) {
    (t.state == UPLOADING || t.state == COMPLETING) && calls.first.status == SessionMissing
  }

  /** The deciding answer is neither success, nor worth a retry, nor a lost session found by the first call. */
  ghost predicate Rejected(t: Task, calls: Calls) {
    var status := Deciding(t, calls).status;
    status == PermanentFailure || (status == SessionMissing && !LostAtFirst(t, calls))
  }

  /** What a pass makes of an active task of a known device. */
  lemma PassSays(t: Task, calls: Calls, c: RetryConfig, now: nat)
    requires Active(t) && calls.deviceKnown
    ensures var u, d := AfterPass(t, calls, c, now), Deciding(t, calls);
            && u.sha == t.sha && u.fileSize == t.fileSize
            && (u.state == FAILED <==> Rejected(t, calls))
            && (Rejected(t, calls) ==> u.lastError == d.code)
            && (d.status == Retryable ==>
                  && u == t.(retryAttempts := u.retryAttempts, nextAttempt := u.nextAttempt, lastError := d.code)
                  && u.retryAttempts == Min(t.retryAttempts + 1, c.maxSteps)
                  && u.nextAttempt == now + DelayOf(c, u.retryAttempts))
            && (LostAtFirst(t, calls) ==> u.state == READY && u.uploadId == None && u.retryAttempts == 0)
            && (d.status == Success && t.state == READY ==>
                  && u.state == UPLOADING && u.uploadId == Some(d.uploadId)
                  && u.chunkSize == d.chunkSize && u.chunkCount == d.chunkCount)
            && (d.status == Success && t.state == UPLOADING ==> u.state == COMPLETING && u.uploadId == t.uploadId)
            && (d.status == Success && t.state == COMPLETING ==>
                  u.state == DONE && u.archiveId == d.archiveId && u.uploadId == t.uploadId)
  {
    hide ChunkOutcome, DelayOf;
    if t.state == UPLOADING && calls.first.status == Success {
      DecidingIs(t, calls);
    }
    hide Deciding;
  }

  /** When the server has lost the session, the task starts over with its payload if and only if the first call of the
      pass finds that out. When a chunk is the first to find it, the task fails for good. */
  lemma LostSessionRestartsIff(t: Task, calls: Calls, c: RetryConfig, now: nat)
    requires (t.state == UPLOADING || t.state == COMPLETING) && calls.deviceKnown
    requires Deciding(t, calls).status == SessionMissing
    ensures var u := AfterPass(t, calls, c, now);
            && (u.state == READY && u.uploadId == None <==> calls.first.status == SessionMissing)
            && (u.state == FAILED <==> calls.first.status != SessionMissing)
  {
    hide AfterPass, Deciding;
    PassSays(t, calls, c, now);
  }

  /** The session is still there for the query and gone for the only missing chunk: no new session is ever made. */
  lemma LostAtChunkFails(t: Task, c: RetryConfig, now: nat)
    requires t.state == UPLOADING
    ensures exists calls: Calls ::
              && calls.deviceKnown && calls.first.status == Success && Deciding(t, calls).status == SessionMissing
              && AfterPass(t, calls, c, now).state == FAILED
  {
    var query := CallResult(Success, "", 0, 0, 0, [0], 0);
    var lost := CallResult(SessionMissing, "UPLOAD_NOT_FOUND", 0, 0, 0, [], 0);
    var calls := Calls(true, query, _ => lost);
    assert ChunkOutcome(query, [0], calls.chunk) == lost;
    DecidingIs(t, calls);
    LostSessionRestartsIff(t, calls, c, now);
  }

  // ---------------------------------------------------------------- the agent

  /** The agent's task table and what the spool holds durably. */
  class CollectorAgent {
    var tasks: map<nat, Task>
    var states: map<nat, Task>
    var files: map<nat, Bytes>
    const retry: RetryConfig

    constructor (states: map<nat, Task>, files: map<nat, Bytes>, retry: RetryConfig)
      ensures tasks == this.states == states && this.files == files && this.retry == retry
    {
      this.states, this.files, this.retry := states, files, retry;
      tasks := states;
    }

    /** SpoolStore::save */
    method Save(id: nat)
      requires id in tasks
      modifies this`states
      ensures states == old(states)[id := tasks[id]]
    {
      states := states[id := tasks[id]];
    }

    /** SpoolStore::removePayload; it refuses anything but a DONE task. */
    method RemovePayload(id: nat) returns (ok: bool)
      requires id in tasks
      modifies this`files
      ensures ok == (tasks[id].state == DONE)
      ensures files == if ok then old(files) - {id} else old(files)
    {
      if tasks[id].state != DONE {
        return false;
      }
      files := files - {id};
      return true;
    }

    method ScheduleRetry(id: nat, code: string, now: nat)
      requires id in tasks
      modifies this`tasks, this`states
      ensures tasks == old(tasks)[id := Retried(old(tasks)[id], retry, now, code)]
      ensures states == old(states)[id := tasks[id]]
    {
      var t := tasks[id];
      var attempts := Min(t.retryAttempts + 1, retry.maxSteps);
      var delay := BackoffDelay(retry, attempts);
      tasks := tasks[id := t.(retryAttempts := attempts, nextAttempt := now + delay, lastError := code)];
      Save(id);
    }

    method FailTask(id: nat, code: string)
      requires id in tasks
      modifies this`tasks, this`states
      ensures tasks == old(tasks)[id := Failed(old(tasks)[id], code)]
      ensures states == old(states)[id := tasks[id]]
    {
      tasks := tasks[id := tasks[id].(state := FAILED, lastError := code, nextAttempt := 0)];
      Save(id);
    }

    method Commit(id: nat, t: Task)
      requires id in tasks
      modifies this`tasks, this`states
      ensures tasks == old(tasks)[id := t] && states == old(states)[id := t]
    {
      tasks := tasks[id := t];
      Save(id);
    }

    /** CollectorApp::processTask: an active task moves on after success, starts over when the first call finds the
        session lost, waits after a retryable answer and fails after any other one. The spool follows the table, and
        the payload is removed when, and only when, the task has just been saved as DONE. */
    method ProcessTask(id: nat, calls: Calls, now: nat)
      requires id in tasks && tasks == states
      modifies this
      ensures tasks == old(tasks)[id := AfterPass(old(tasks)[id], calls, retry, now)]
      ensures states == tasks
      ensures files == if Active(old(tasks)[id]) && tasks[id].state == DONE then old(files) - {id} else old(files)
      ensures tasks[id].sha == old(tasks)[id].sha && tasks[id].fileSize == old(tasks)[id].fileSize
      ensures !calls.deviceKnown ==> tasks[id].state == FAILED && tasks[id].lastError == "DEVICE_CONFIG_MISSING"
      ensures calls.deviceKnown && !Active(old(tasks)[id]) ==> tasks == old(tasks)
      ensures calls.deviceKnown && Active(old(tasks)[id]) ==>
                var t, u, d := old(tasks)[id], tasks[id], Deciding(old(tasks)[id], calls);
                && (u.state == FAILED <==>
                      || d.status == PermanentFailure
                      || (d.status == SessionMissing && !LostAtFirst(t, calls)))
                && (d.status == Retryable ==>
                      && u == t.(retryAttempts := u.retryAttempts, nextAttempt := u.nextAttempt, lastError := d.code)
                      && u.retryAttempts == Min(t.retryAttempts + 1, retry.maxSteps)
                      && u.nextAttempt == now + DelayOf(retry, u.retryAttempts))
                && (LostAtFirst(t, calls) ==> u.state == READY && u.uploadId == None && u.retryAttempts == 0)
                && (d.status == Success && t.state == READY ==>
                      && u.state == UPLOADING && u.uploadId == Some(d.uploadId)
                      && u.chunkSize == d.chunkSize && u.chunkCount == d.chunkCount)
                && (d.status == Success && t.state == UPLOADING ==> u.state == COMPLETING && u.uploadId == t.uploadId)
                && (d.status == Success && t.state == COMPLETING ==>
                      u.state == DONE && u.archiveId == d.archiveId && u.uploadId == t.uploadId)
    {
      if calls.deviceKnown && Active(tasks[id]) {
        PassSays(tasks[id], calls, retry, now);
      }
      hide Deciding;
      if !calls.deviceKnown {
        FailTask(id, "DEVICE_CONFIG_MISSING");
        return;
      }
      var t := tasks[id];
      var result := calls.first;
      if t.state == READY {
        if result.status == Success {
          Commit(id, t.(uploadId := Some(result.uploadId), chunkSize := result.chunkSize,
                        chunkCount := result.chunkCount, state := UPLOADING, retryAttempts := 0,
                        nextAttempt := 0, lastError := ""));
          return;
        }
      } else if t.state == UPLOADING {
        if result.status == SessionMissing {
          Commit(id, t.(uploadId := None, state := READY, retryAttempts := 0, lastError := "UPLOAD_SESSION_LOST"));
          return;
        }
        if result.status == Success {
          result := UploadMissing(result, calls.chunk);
          if result.status == Success {
            Commit(id, t.(state := COMPLETING, retryAttempts := 0, lastError := ""));
            return;
          }
        }
      } else if t.state == COMPLETING {
        if result.status == SessionMissing {
          Commit(id, t.(uploadId := None, state := READY, retryAttempts := 0, lastError := "UPLOAD_SESSION_LOST"));
          return;
        }
        if result.status == Success {
          Commit(id, t.(state := DONE, archiveId := result.archiveId, retryAttempts := 0, nextAttempt := 0,
                        lastError := ""));
          var removed := RemovePayload(id);
          return;
        }
      } else {
        assert tasks == old(tasks)[id := t];
        return;
      }
      if result.status == Retryable {
        ScheduleRetry(id, result.code, now);
      } else {
        FailTask(id, result.code);
      }
    }
  }

  /** The loop over the missing chunks that the query reported, left at the first failure. */
  method UploadMissing(query: CallResult, answer: nat -> CallResult) returns (result: CallResult)
    requires query.status == Success
    ensures result == ChunkOutcome(query, query.missing, answer)
    ensures result.status == Success <==> forall c <- query.missing :: answer(c).status == Success
    ensures result.status == Success ==> result == query
    ensures result.status != Success ==>
              exists i: nat :: FirstToFail(query.missing, answer, i) && result == answer(query.missing[i])
  {
    var missing := query.missing;
    result := query;
    var i := 0;
    while i < |missing|
      invariant i <= |missing| && result == query
      invariant ChunkOutcome(query, missing, answer) == ChunkOutcome(query, missing[i..], answer)
      invariant forall c <- missing[..i] :: answer(c).status == Success
    {
      var uploaded := answer(missing[i]);
      if uploaded.status != Success {
        assert forall j :: 0 <= j < i ==> missing[j] in missing[..i];
        assert FirstToFail(missing, answer, i);
        result := uploaded;
        return;
      }
      assert missing[..i + 1] == missing[..i] + [missing[i]];
      i := i + 1;
    }
    assert missing[..i] == missing;
  }
}
