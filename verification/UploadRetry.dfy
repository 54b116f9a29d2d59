// What a client that repeats a lost complete request can expect, and when it can never succeed.

module UploadRetry {
  import opened Common
  import opened UploadScripts
  import opened UploadProtocol

  // ---------------------------------------------------------------- single steps of a complete request

  lemma LookupStep(u: Upload, now: nat, ttl: Ttl, k: nat, path: string, time: nat)
    requires WellFormed(u) && k !in u.completers
    ensures Next(u, now, ttl, CompleterLookup(k, path, time))
         == u.(completers := u.completers[k := Lookup(u, path, time)])
  {
    hide StepWriter, StepCleaner;
  }

  /** Begin-complete: freezes, resumes, or refuses. */
  lemma BeginStep(u: Upload, now: nat, ttl: Ttl, k: nat, p: string, at: nat)
    requires WellFormed(u) && k in u.completers && u.completers[k] == Chosen(p, at)
    ensures var v := Next(u, now, ttl, CompleterBegin(k));
            && v.file == u.file && v.meta == u.meta && v.place == u.place && v.rows == u.rows
            && (v.keys.session.Present? <==> u.keys.session.Present?)
            && v.completers == u.completers[k :=
                 if BeginCompleteStatusOf(u.keys, Count(u.meta)) in {Ready, Resumable, AlreadyArchived}
                 then Frozen(p, at)
                 else CompleterGone]
  {
    hide StepWriter, StepCleaner;
  }

  lemma FindStep(u: Upload, now: nat, ttl: Ttl, k: nat, p: string, at: nat)
    requires WellFormed(u) && k in u.completers && u.completers[k] == Frozen(p, at)
    ensures Next(u, now, ttl, CompleterFind(k))
         == u.(completers := u.completers[k := if u.rows != [] then Recorded(u.rows[0]) else Searched(p, at)])
  {
    hide StepWriter, StepCleaner;
  }

  lemma StatStep(u: Upload, now: nat, ttl: Ttl, k: nat, p: string, at: nat)
    requires WellFormed(u) && k in u.completers && u.completers[k] == Searched(p, at)
    ensures Next(u, now, ttl, CompleterStat(k)) == u.(completers := u.completers[k := Statted(p, at, u.place == At(p))])
  {
    hide StepWriter, StepCleaner;
  }

  lemma OpenStep(u: Upload, now: nat, ttl: Ttl, k: nat, p: string, at: nat)
    requires WellFormed(u) && k in u.completers && u.completers[k] == Statted(p, at, u.place == At(p))
    ensures Next(u, now, ttl, CompleterOpen(k))
         == u.(completers := u.completers[k :=
                 if u.place == Temp || u.place == At(p) then Reading(p, at, u.place == At(p), []) else CompleterGone])
  {
    hide StepWriter, StepCleaner;
  }

  /** One read of the whole file; a request that is gone stays gone. */
  lemma ReadStep(u: Upload, now: nat, ttl: Ttl, k: nat, p: string, at: nat, final: bool)
    requires WellFormed(u) && k in u.completers
    requires u.completers[k] == Reading(p, at, final, []) || u.completers[k] == CompleterGone
    ensures Next(u, now, ttl, CompleterRead(k, |u.file|))
         == u.(completers := u.completers[k :=
                 if u.completers[k].CompleterGone? then CompleterGone else Reading(p, at, final, u.file)])
  {
    hide StepWriter, StepCleaner;
    assert [] + u.file[0..|u.file|] == u.file;
    assert u.completers[k := u.completers[k]] == u.completers;
  }

  /** The verdict on a whole file with the announced digest. */
  lemma VerdictStep(u: Upload, now: nat, ttl: Ttl, k: nat, p: string, at: nat)
    requires WellFormed(u) && k in u.completers && u.completers[k] == Reading(p, at, false, u.file)
    requires u.meta.sha == Sha256(u.file)
    ensures Next(u, now, ttl, CompleterVerdict(k)) == u.(completers := u.completers[k := Verified(p, at, false)])
  {
    hide StepWriter, StepCleaner;
  }

  lemma RenameStep(u: Upload, now: nat, ttl: Ttl, k: nat, p: string, at: nat)
    requires WellFormed(u) && k in u.completers && u.completers[k] == Verified(p, at, false) && u.place == Temp
    ensures Next(u, now, ttl, CompleterRename(k)) == u.(place := At(p), completers := u.completers[k := Stored(p, at)])
  {
    hide StepWriter, StepCleaner;
  }

  lemma FailStep(u: Upload, now: nat, ttl: Ttl, k: nat)
    requires WellFormed(u) && k in u.completers
    ensures Next(u, now, ttl, CompleterFail(k)) == u.(completers := u.completers[k := CompleterGone])
  {
    hide StepWriter, StepCleaner;
  }

  // ---------------------------------------------------------------- one undisturbed retry

  ghost function Then(u: Upload, now: nat, ttl: Ttl, e: Event): (v: Upload)
    requires WellFormed(u)
    ensures WellFormed(v)
  {
    NextWellFormed(u, now, ttl, e);
    Next(u, now, ttl, e)
  }

  /** One complete request from lookup to answer, none of its steps interrupted. */
  ghost function Completed(u: Upload, now: nat, ttl: Ttl, k: nat, path: string, time: nat, id: nat): Upload
    requires WellFormed(u)
  {
    var looked := Then(u, now, ttl, CompleterLookup(k, path, time));
    var searched := Then(Then(looked, now, ttl, CompleterBegin(k)), now, ttl, CompleterFind(k));
    var atFile := Then(Then(searched, now, ttl, CompleterStat(k)), now, ttl, CompleterOpen(k));
    var whole := Then(atFile, now, ttl, CompleterRead(k, |u.file|));
    var stored := Then(Then(whole, now, ttl, CompleterVerdict(k)), now, ttl, CompleterRename(k));
    Then(Then(stored, now, ttl, CompleterInsert(k, id)), now, ttl, CompleterMarkArchived(k))
  }

  /** Requests, rows, sessions and the archived file carry paths from `paths`, and no empty path or time 0. */
  ghost predicate Named(u: Upload, paths: set<string>) {
    && (forall k <- u.completers :: NamedCompleter(u.completers[k], paths))
    && (forall r <- u.rows :: r.path in paths && r.path != "" && r.at != 0)
    && (u.place.At? ==> u.place.path in paths && u.frozen)
    && (SessionIs(u, VERIFYING) || SessionIs(u, ARCHIVED) ==>
          var h := u.keys.session.value; h.relativePath in paths && h.relativePath != "" && h.archivedAt != 0)
  }

  predicate Walking(k: Completer) {
    k.Chosen? || k.Frozen? || k.Searched? || k.Statted? || k.Reading? || k.Verified? || k.Stored?
  }

  predicate NamedCompleter(k: Completer, paths: set<string>) {
    Walking(k) ==> k.path in paths && k.path != "" && k.at != 0
  }

  /** The path a complete request goes on with. */
  function PathFor(u: Upload, own: string): string {
    if u.keys.session.Present? && u.keys.session.value.state != UPLOADING then u.keys.session.value.relativePath
    else own
  }

  /** What a complete request needs: a live session that has not failed, all chunks, and a row, or else a file with
      the announced digest in the temporary directory or at the path the request goes on with. */
  ghost predicate Completable(u: Upload, own: string)
    requires WellFormed(u)
  {
    && u.keys.session.Present? && !SessionIs(u, FAILED)
    && (SessionIs(u, UPLOADING) ==> |BitsOf(u.keys)| == Count(u.meta))
    && (u.rows != [] || (u.meta.sha == Sha256(u.file) && (u.place == Temp || u.place == At(PathFor(u, own)))))
  }

  /** In every state of an upload, an undisturbed complete request is answered with success if and only if the
      upload is completable, and then with the id of its row. */
  lemma RetrySucceedsIff(u: Upload, now: nat, ttl: Ttl, paths: set<string>, k: nat, path: string, time: nat, id: nat)
    requires Inv(u, now, ttl) && Named(u, paths)
    requires k !in u.completers && path != "" && time != 0 && id > 0
    ensures var v := Completed(u, now, ttl, k, path, time, id);
            && k in v.completers && (v.completers[k].Replied? <==> Completable(u, path))
            && (v.completers[k].Replied? ==>
                  && v.rows != [] && v.completers[k].archiveId == v.rows[0].archiveId
                  && (v.rows == u.rows || (u.rows == [] && v.rows[0].archiveId == id)))
  {
    hide Next, Inv, Named;
    var searched := RetryLook(u, now, ttl, paths, k, path, time);
    var c := searched.completers[k];
    if c.Searched? {
      var read := RetryRead(searched, now, ttl, k, c.path, c.at);
      var stored := RetryVerdict(read, now, ttl, k, c.path, c.at);
      RetryStore(stored, now, ttl, k, id);
    } else {
      Settled(searched, now, ttl, k, |u.file|, id);
    }
  }

  /** Lookup, begin, find: the request is refused, is answered by the session, finds a row, or goes on. */
  lemma RetryLook(u: Upload, now: nat, ttl: Ttl, paths: set<string>, k: nat, path: string, time: nat)
    returns (v: Upload)
    requires Inv(u, now, ttl) && Named(u, paths) && k !in u.completers && path != "" && time != 0
    ensures WellFormed(u)
    ensures v == Then(Then(Then(u, now, ttl, CompleterLookup(k, path, time)), now, ttl, CompleterBegin(k)), now, ttl,
                      CompleterFind(k))
    ensures v.file == u.file && v.meta == u.meta && v.place == u.place && v.rows == u.rows && k in v.completers
    ensures v.keys.session.Present? <==> u.keys.session.Present?
    ensures var open := u.keys.session.Present? && !SessionIs(u, FAILED)
                        && (SessionIs(u, UPLOADING) ==> |BitsOf(u.keys)| == Count(u.meta));
            if !open then v.completers[k] == CompleterGone
            else if SessionIs(u, ARCHIVED) then u.rows != [] && v.completers[k] == Replied(u.rows[0].archiveId)
            else if u.rows != [] then v.completers[k] == Recorded(u.rows[0])
            else v.completers[k].Searched? && v.completers[k].path == PathFor(u, path)
  {
    hide Next, ChunksInv, CompleterInv, WriterInv;
    var looked := Then(u, now, ttl, CompleterLookup(k, path, time));
    LookupStep(u, now, ttl, k, path, time);
    var begun := Then(looked, now, ttl, CompleterBegin(k));
    v := Then(begun, now, ttl, CompleterFind(k));
    var c := Lookup(u, path, time);
    if c.Chosen? {
      BeginStep(looked, now, ttl, k, c.path, c.at);
      if begun.completers[k].Frozen? {
        FindStep(begun, now, ttl, k, c.path, c.at);
      } else {
        Idles(begun, now, ttl, k, CompleterFind(k));
      }
    } else {
      Idles(looked, now, ttl, k, CompleterBegin(k));
      Idles(looked, now, ttl, k, CompleterFind(k));
    }
  }

  predicate Settles(k: Completer) {
    k.CompleterGone? || k.Replied? || k.Recorded?
  }

  /** A request that is over, or has its row, takes no part in the steps on the file. */
  lemma Idles(u: Upload, now: nat, ttl: Ttl, k: nat, e: Event)
    requires WellFormed(u) && k in u.completers && Settles(u.completers[k])
    requires e == CompleterBegin(k) || e == CompleterFind(k) || e == CompleterStat(k) || e == CompleterOpen(k)
             || (e.CompleterRead? && e.k == k) || e == CompleterVerdict(k) || e == CompleterRename(k)
             || (e.CompleterInsert? && e.k == k)
    ensures Next(u, now, ttl, e) == u
  {
    hide StepWriter, StepCleaner;
  }

  /** From the lookup of the row on, a request that is over stays over, and one with its row answers. */
  lemma Settled(u: Upload, now: nat, ttl: Ttl, k: nat, size: nat, id: nat)
    requires WellFormed(u) && k in u.completers && Settles(u.completers[k])
    ensures var atFile := Then(Then(u, now, ttl, CompleterStat(k)), now, ttl, CompleterOpen(k));
            var whole := Then(atFile, now, ttl, CompleterRead(k, size));
            var stored := Then(Then(whole, now, ttl, CompleterVerdict(k)), now, ttl, CompleterRename(k));
            var v := Then(Then(stored, now, ttl, CompleterInsert(k, id)), now, ttl, CompleterMarkArchived(k));
            && v.rows == u.rows && k in v.completers
            && v.completers[k] == if !u.completers[k].Recorded? then u.completers[k]
                                  else if u.keys.session.Present? then Replied(u.completers[k].row.archiveId)
                                  else CompleterGone
  {
    Idles(u, now, ttl, k, CompleterStat(k));
    Idles(u, now, ttl, k, CompleterOpen(k));
    Idles(u, now, ttl, k, CompleterRead(k, size));
    Idles(u, now, ttl, k, CompleterVerdict(k));
    Idles(u, now, ttl, k, CompleterRename(k));
    Idles(u, now, ttl, k, CompleterInsert(k, id));
    hide StepWriter, StepCleaner;
  }

  /** Stat, open, read: the request holds the whole file, or finds none. */
  lemma RetryRead(u: Upload, now: nat, ttl: Ttl, k: nat, p: string, at: nat) returns (v: Upload)
    requires WellFormed(u) && k in u.completers && u.completers[k] == Searched(p, at)
    ensures v == Then(Then(Then(u, now, ttl, CompleterStat(k)), now, ttl, CompleterOpen(k)), now, ttl,
                      CompleterRead(k, |u.file|))
    ensures v == u.(completers := u.completers[k :=
                        if u.place == Temp || u.place == At(p) then Reading(p, at, u.place == At(p), u.file)
                        else CompleterGone])
  {
    hide Next;
    var final := u.place == At(p);
    StatStep(u, now, ttl, k, p, at);
    var a := Then(u, now, ttl, CompleterStat(k));
    OpenStep(a, now, ttl, k, p, at);
    var b := Then(a, now, ttl, CompleterOpen(k));
    ReadStep(b, now, ttl, k, p, at, final);
    v := Then(b, now, ttl, CompleterRead(k, |u.file|));
    var last := if u.place == Temp || final then Reading(p, at, final, u.file) else CompleterGone;
    assert v.completers == u.completers[k := last];
  }

  /** Verdict and rename: a request that holds the file stores it by its digest. */
  lemma RetryVerdict(u: Upload, now: nat, ttl: Ttl, k: nat, p: string, at: nat) returns (v: Upload)
    requires WellFormed(u) && k in u.completers
    requires u.completers[k] == CompleterGone
             || ((u.place == Temp || u.place == At(p)) && u.completers[k] == Reading(p, at, u.place == At(p), u.file))
    ensures v == Then(Then(u, now, ttl, CompleterVerdict(k)), now, ttl, CompleterRename(k))
    ensures v.keys == u.keys && v.rows == u.rows && k in v.completers
    ensures v.completers[k] == if u.completers[k] == CompleterGone then CompleterGone
                               else if u.meta.sha == Sha256(u.file) then Stored(p, at) else Rejected
  {
    v := Then(Then(u, now, ttl, CompleterVerdict(k)), now, ttl, CompleterRename(k));
  }

  /** Insert and mark: a request that stored the file is answered with the row's id. */
  lemma RetryStore(u: Upload, now: nat, ttl: Ttl, k: nat, id: nat)
    requires WellFormed(u) && u.keys.session.Present? && u.rows == [] && id > 0 && k in u.completers
    requires u.completers[k].CompleterGone? || u.completers[k].Rejected? || u.completers[k].Stored?
    ensures var v := Then(Then(u, now, ttl, CompleterInsert(k, id)), now, ttl, CompleterMarkArchived(k));
            && k in v.completers
            && (v.completers[k].Replied? <==> u.completers[k].Stored?)
            && (v.completers[k].Replied? ==>
                  v.completers[k].archiveId == id && v.rows != [] && v.rows[0].archiveId == id)
  {
  }

  // ---------------------------------------------------------------- one undisturbed pass of the cleanup

  ghost function Cleaned(u: Upload, now: nat, ttl: Ttl): Upload
    requires WellFormed(u)
  {
    Then(Then(Then(u, now, ttl, CleanerLookup), now, ttl, CleanerUnlink), now, ttl, CleanerDelete)
  }

  /** The temporary file is removed exactly when its session is missing or over, with the keys of a session that is
      over; nothing else of an upload is touched. */
  lemma CleanedIff(u: Upload, now: nat, ttl: Ttl)
    requires WellFormed(u)
    ensures var v := Cleaned(u, now, ttl);
            var over := u.keys.session.Present?
                        && (u.keys.session.value.state == FAILED || u.keys.session.value.state == ARCHIVED);
            && v.place == (if u.place == Temp && (u.keys.session.Absent? || over) then Unlinked else u.place)
            && v.keys == (if u.place == Temp && over then Keys(Absent, Absent, Absent) else u.keys)
            && v == u.(place := v.place, keys := v.keys, cleaner := v.cleaner)
  {
    hide Next;
    CleanerMoves(u, now, ttl, CleanerLookup);
    var looked := Then(u, now, ttl, CleanerLookup);
    CleanerMoves(looked, now, ttl, CleanerUnlink);
    CleanerMoves(Then(looked, now, ttl, CleanerUnlink), now, ttl, CleanerDelete);
  }

  lemma CleanerMoves(u: Upload, now: nat, ttl: Ttl, e: Event)
    requires WellFormed(u) && (e.CleanerLookup? || e.CleanerUnlink? || e.CleanerDelete?)
    ensures Next(u, now, ttl, e) == StepCleaner(u, e)
  {
    hide StepWriter, StepComplete;
  }
}
