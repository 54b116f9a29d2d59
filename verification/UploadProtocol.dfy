// One upload session as a state machine: any number of chunk writers and completers, the cleanup
// thread, and expiry of its Redis keys, interleaved step by step.

module UploadProtocol {
  import opened Common
  import opened ChunkLayout
  import opened UploadScripts

  // ---------------------------------------------------------------- state

  /** What the create request fixes for good: size, digest, and where each chunk starts. */
  datatype Meta = Meta(fileSize: nat, sha: Digest, start: seq<nat>)

  ghost predicate ValidMeta(m: Meta) {
    Cuts(m.start, m.fileSize)
  }

  /** The metadata of an accepted create request. */
  function MetaFor(fileSize: nat, chunkSize: nat, sha: Digest): Meta
    requires fileSize > 0 && chunkSize > 0
  {
    Meta(fileSize, sha, Starts(fileSize, chunkSize))
  }

  function Count(m: Meta): nat
    requires |m.start| > 0
  {
    |m.start| - 1
  }

  function Length(m: Meta, c: nat): int
    requires c + 1 < |m.start|
  {
    m.start[c + 1] as int - m.start[c] as int
  }

  /** Where the one inode of this upload is linked: as the temporary file, in the archive, or nowhere. */
  datatype Place = Temp | At(path: string) | Unlinked

  /** A PUT request. It may stop for ever after any step. */
  datatype Writer =
    | Looked(chunk: nat, body: Bytes)
    | Granted(chunk: nat, body: Bytes)
    | Writing(chunk: nat, body: Bytes, written: nat)
    | Acknowledged(chunk: nat, body: Bytes)
    | WriterGone

  /** A complete request. It may stop for ever after any step. */
  datatype Completer =
    | Chosen(path: string, at: nat)
    | Frozen(path: string, at: nat)
    | Searched(path: string, at: nat)
    | Statted(path: string, at: nat, finalExists: bool)
    | Reading(path: string, at: nat, finalExists: bool, data: Bytes)
    | Verified(path: string, at: nat, finalExists: bool)
    | Rejected
    | Stored(path: string, at: nat)
    | Conflicted
    | Recorded(row: Row)
    | Replied(archiveId: nat)
    | CompleterGone

  /** A row of archive_file. */
  datatype Row = Row(archiveId: nat, path: string, size: nat, sha: Digest, at: nat)

  /** The cleanup thread's view of this upload. */
  datatype Cleaner = Idle | SawMissing | SawTerminal | RemovedFile

  datatype Upload = Upload(
    meta: Meta,
    keys: Keys,
    file: Bytes,
    place: Place,
    writers: map<nat, Writer>,
    completers: map<nat, Completer>,
    rows: seq<Row>,
    cleaner: Cleaner,
    // history, read by no step: first digest registered per chunk, bits ever set, frozen once
    registered: map<nat, Digest>,
    everDone: set<nat>,
    frozen: bool)

  datatype Ttl = Ttl(session: nat, terminal: nat)

  datatype Event =
    | WriterLookup(w: nat, chunk: nat, body: Bytes)
    | WriterBegin(w: nat)
    | WriterOpen(w: nat)
    | WriterPwrite(w: nat, count: nat)
    | WriterFinish(w: nat)
    | WriterFail(w: nat)
    | CompleterLookup(k: nat, ownPath: string, ownTime: nat)
    | CompleterBegin(k: nat)
    | CompleterFind(k: nat)
    | CompleterStat(k: nat)
    | CompleterOpen(k: nat)
    | CompleterRead(k: nat, count: nat)
    | CompleterVerdict(k: nat)
    | CompleterRename(k: nat)
    | CompleterInsert(k: nat, freshId: nat)
    | CompleterResolve(k: nat)
    | CompleterMarkArchived(k: nat)
    | CompleterMarkFailed(k: nat)
    | CompleterFail(k: nat)
    | CleanerLookup
    | CleanerUnlink
    | CleanerDelete

  // ---------------------------------------------------------------- steps

  ghost function RegionOf(file: Bytes, m: Meta, c: nat): Bytes
    requires ValidMeta(m) && c < Count(m) && |file| == m.fileSize
  {
    Slice(file, m.start[c], Length(m, c))
  }

  function Slice(file: Bytes, off: nat, len: nat): Bytes
    requires off + len <= |file|
  {
    file[off..off + len]
  }

  /** The first `k` bytes of `body` stand in the file from `off` on. */
  predicate HoldsPrefix(file: Bytes, off: nat, body: Bytes, k: nat) {
    k <= |body| && off + k <= |file| && file[off..off + k] == body[..k]
  }

  /** pwrite: `data` replaces the bytes from `off` on. */
  function Overwrite(file: Bytes, off: nat, data: Bytes): (r: Bytes)
    requires off + |data| <= |file|
    ensures |r| == |file|
  {
    seq(|file|, i requires 0 <= i < |file| => if off <= i < off + |data| then data[i - off] else file[i])
  }

  function SessionIs(u: Upload, s: SessionState): bool {
    u.keys.session.Present? && u.keys.session.value.state == s
  }

  function Pwrite(u: Upload, w: nat, c: nat, body: Bytes, k: nat, n: nat): Upload
    requires c < |u.meta.start| && k + n <= |body| && u.meta.start[c] + k + n <= |u.file|
  {
    u.(file := Overwrite(u.file, u.meta.start[c] + k, body[k..k + n]),
       writers := u.writers[w := Writing(c, body, k + n)])
  }

  ghost predicate WellFormed(u: Upload) {
    ValidMeta(u.meta) && |u.file| == u.meta.fileSize
  }

  ghost function StepWriter(u: Upload, now: nat, ttl: Ttl, e: Event): Upload
    requires WellFormed(u)
  {
    match e
    case WriterLookup(w, c, body) =>
      if && w !in u.writers && SessionIs(u, UPLOADING) && c < Count(u.meta)
         && |body| == Length(u.meta, c)
      then u.(writers := u.writers[w := Looked(c, body)]) else u
    case WriterBegin(w) =>
      if w in u.writers && u.writers[w].Looked? then
        var Looked(c, body) := u.writers[w];
        if BeginChunkStatusOf(u.keys, c, Sha256(body)) == Writable then
          u.(keys := BeginChunkKeys(u.keys, c, Sha256(body), now + ttl.session),
             writers := u.writers[w := Granted(c, body)],
             registered := u.registered[c := Sha256(body)])
        else
          // a chunk that is already finished with this content is answered at once
          u.(writers := u.writers[w :=
               if BeginChunkStatusOf(u.keys, c, Sha256(body)) == AlreadyComplete then Acknowledged(c, body)
               else WriterGone])
      else u
    case WriterOpen(w) =>
      if w in u.writers && u.writers[w].Granted? then
        var Granted(c, body) := u.writers[w];
        u.(writers := u.writers[w := if u.place.Temp? then Writing(c, body, 0) else WriterGone])
      else u
    case WriterPwrite(w, n) =>
      if w in u.writers && u.writers[w].Writing? then
        var Writing(c, body, k) := u.writers[w];
        if c < Count(u.meta) && k + n <= |body| && u.meta.start[c] + k + n <= |u.file|
        then Pwrite(u, w, c, body, k, n) else u
      else u
    case WriterFinish(w) =>
      if w in u.writers && u.writers[w].Writing? && u.writers[w].written == |u.writers[w].body| then
        var Writing(c, body, _) := u.writers[w];
        if FinishChunkOk(u.keys, c, Sha256(body)) then
          u.(keys := FinishChunkKeys(u.keys, c, Sha256(body), now + ttl.session),
             writers := u.writers[w := Acknowledged(c, body)],
             everDone := u.everDone + {c})
        else u.(writers := u.writers[w := WriterGone])
      else u
    case WriterFail(w) =>
      // an I/O or Redis error, or the process dies
      if w in u.writers then u.(writers := u.writers[w := WriterGone]) else u
    case _ => u
  }

  /** The answer of the session lookup: which path and time the request goes on with, if any. */
  function Lookup(u: Upload, ownPath: string, ownTime: nat): Completer {
    if u.keys.session.Absent? then CompleterGone
    else
      var h := u.keys.session.value;
      match h.state
      case FAILED => CompleterGone
      case ARCHIVED => if h.archiveId == 0 || h.archivedAt == 0 then CompleterGone else Replied(h.archiveId)
      case VERIFYING =>
        if h.archivedAt == 0 || h.relativePath == "" then CompleterGone else Chosen(h.relativePath, h.archivedAt)
      case UPLOADING => if ownTime == 0 || ownPath == "" then CompleterGone else Chosen(ownPath, ownTime)
  }

  ghost function StepComplete(u: Upload, now: nat, ttl: Ttl, e: Event): Upload
    requires ValidMeta(u.meta)
  {
    match e
    case CompleterLookup(k, path, time) =>
      if k in u.completers then u else u.(completers := u.completers[k := Lookup(u, path, time)])
    case CompleterBegin(k) =>
      if k in u.completers && u.completers[k].Chosen? then
        var Chosen(path, at) := u.completers[k];
        var status := BeginCompleteStatusOf(u.keys, Count(u.meta));
        if status in {Ready, Resumable, AlreadyArchived} then
          u.(keys := BeginCompleteKeys(u.keys, Count(u.meta), at, path),
             completers := u.completers[k := Frozen(path, at)],
             frozen := true)
        else u.(completers := u.completers[k := CompleterGone])
      else u
    case CompleterFind(k) =>
      if k in u.completers && u.completers[k].Frozen? then
        var Frozen(path, at) := u.completers[k];
        u.(completers := u.completers[k := if u.rows != [] then Recorded(u.rows[0]) else Searched(path, at)])
      else u
    case CompleterStat(k) =>
      if k in u.completers && u.completers[k].Searched? then
        var Searched(path, at) := u.completers[k];
        u.(completers := u.completers[k := Statted(path, at, u.place == At(path))])
      else u
    case CompleterOpen(k) =>
      if k in u.completers && u.completers[k].Statted? then
        var Statted(path, at, final) := u.completers[k];
        u.(completers := u.completers[k :=
            if u.place != (if final then At(path) else Temp) then CompleterGone
            else if |u.file| != u.meta.fileSize then Rejected
            else Reading(path, at, final, [])])
      else u
    case CompleterRead(k, n) =>
      if k in u.completers && u.completers[k].Reading? then
        var Reading(path, at, final, data) := u.completers[k];
        if |data| + n <= |u.file|
        then u.(completers := u.completers[k :=
                    Reading(path, at, final, data + u.file[|data|..|data| + n])])
        else u
      else u
    case CompleterVerdict(k) =>
      if k in u.completers && u.completers[k].Reading? && |u.completers[k].data| == u.meta.fileSize then
        var Reading(path, at, final, data) := u.completers[k];
        u.(completers := u.completers[k :=
            if Sha256(data) == u.meta.sha then Verified(path, at, final) else Rejected])
      else u
    case CompleterRename(k) =>
      if k in u.completers && u.completers[k].Verified? then
        var Verified(path, at, final) := u.completers[k];
        if final then u.(completers := u.completers[k := Stored(path, at)])
        else if u.place == Temp then u.(place := At(path), completers := u.completers[k := Stored(path, at)])
        else u.(completers := u.completers[k := CompleterGone])
      else u
    case CompleterInsert(k, id) =>
      if k in u.completers && u.completers[k].Stored? && id > 0 then
        var Stored(path, at) := u.completers[k];
        if u.rows == [] then
          var row := Row(id, path, u.meta.fileSize, u.meta.sha, at);
          u.(rows := [row], completers := u.completers[k := Recorded(row)])
        else u.(completers := u.completers[k := Conflicted])
      else u
    case CompleterResolve(k) =>
      if k in u.completers && u.completers[k].Conflicted? then
        u.(completers := u.completers[k := if u.rows != [] then Recorded(u.rows[0]) else CompleterGone])
      else u
    case CompleterMarkArchived(k) =>
      if k in u.completers && u.completers[k].Recorded? then
        var row := u.completers[k].row;
        u.(keys := MarkArchivedKeys(u.keys, row.archiveId, row.at, row.path, now + ttl.terminal),
           completers := u.completers[k :=
               if u.keys.session.Present? then Replied(row.archiveId) else CompleterGone])
      else u
    case CompleterMarkFailed(k) =>
      if k in u.completers && u.completers[k].Rejected? then
        u.(keys := MarkFailedKeys(u.keys, "FILE_INTEGRITY_MISMATCH", now + ttl.terminal),
           completers := u.completers[k := CompleterGone])
      else u
    case CompleterFail(k) =>
      // an I/O, Redis or MySQL error, or the process dies
      if k in u.completers then u.(completers := u.completers[k := CompleterGone]) else u
    case _ => u
  }

  function StepCleaner(u: Upload, e: Event): Upload {
    match e
    case CleanerLookup =>
      u.(cleaner := if u.keys.session.Absent? then SawMissing
                    else if SessionIs(u, FAILED) || SessionIs(u, ARCHIVED) then SawTerminal
                    else Idle)
    case CleanerUnlink =>
      if u.cleaner.Idle? || u.cleaner.RemovedFile? then u
      else if u.place != Temp then u.(cleaner := Idle)
      else u.(place := Unlinked, cleaner := if u.cleaner == SawTerminal then RemovedFile else Idle)
    case CleanerDelete =>
      if u.cleaner == RemovedFile then u.(keys := EMPTY_KEYS, cleaner := Idle) else u
    case _ => u
  }

  /** One atomic step at time `now`. A step that is not enabled changes nothing. */
  ghost function Next(u: Upload, now: nat, ttl: Ttl, e: Event): Upload
    requires WellFormed(u)
  {
    if e.CleanerLookup? || e.CleanerUnlink? || e.CleanerDelete? then StepCleaner(u, e)
    else if e.WriterLookup? || e.WriterBegin? || e.WriterOpen? || e.WriterPwrite? || e.WriterFinish?
            || e.WriterFail?
    then StepWriter(u, now, ttl, e)
    else StepComplete(u, now, ttl, e)
  }

  lemma NextWellFormed(u: Upload, now: nat, ttl: Ttl, e: Event)
    requires WellFormed(u)
    ensures WellFormed(Next(u, now, ttl, e))
  {
  }

  /** The clock reaches `now`: keys whose time has come are gone. */
  function Elapse(u: Upload, now: nat): Upload {
    u.(keys := PurgeKeys(u.keys, now))
  }

  /** Right after posix_fallocate: a file of the announced size, no session yet. */
  ghost predicate Allocated(u: Upload) {
    && ValidMeta(u.meta) && |u.file| == u.meta.fileSize && u.place == Temp
    && u.keys == EMPTY_KEYS && u.writers == map[] && u.completers == map[] && u.rows == []
    && u.cleaner == Idle && u.registered == map[] && u.everDone == {} && !u.frozen
  }

  // ---------------------------------------------------------------- invariant

  ghost predicate WriterInv(u: Upload, w: Writer)
    requires WellFormed(u)
  {
    match w
    case Looked(c, body) =>
      c < Count(u.meta) && |body| == Length(u.meta, c)
    case Granted(c, body) => GrantedInv(u, c, body)
    case Writing(c, body, k) =>
      GrantedInv(u, c, body) && HoldsPrefix(u.file, u.meta.start[c], body, k)
    case Acknowledged(c, body) => GrantedInv(u, c, body) && c in u.everDone
    case WriterGone => true
  }

  ghost predicate GrantedInv(u: Upload, c: nat, body: Bytes)
    requires ValidMeta(u.meta)
  {
    && c < Count(u.meta) && |body| == Length(u.meta, c)
    && c in u.registered && u.registered[c] == Sha256(body)
  }

  ghost predicate CompleterInv(u: Upload, k: Completer) {
    match k
    case Chosen(_, _) => true
    case Frozen(_, _) => u.frozen
    case Searched(_, _) => u.frozen
    case Statted(path, _, final) => u.frozen && (final ==> u.place == At(path))
    case Reading(path, _, final, data) =>
      u.frozen && (final ==> u.place == At(path)) && |data| <= |u.file| && data == u.file[..|data|]
    case Verified(path, _, final) =>
      u.frozen && (final ==> u.place == At(path)) && Sha256(u.file) == u.meta.sha
    case Rejected => u.frozen && Sha256(u.file) != u.meta.sha
    case Stored(path, _) => u.frozen && u.place == At(path) && Sha256(u.file) == u.meta.sha
    case Conflicted => u.rows != []
    case Recorded(row) => u.rows == [row]
    case Replied(id) => u.rows != [] && u.rows[0].archiveId == id
    case CompleterGone => true
  }

  /** At most one row, and it tells the truth about the file it points to. */
  ghost predicate RowsInv(u: Upload) {
    && |u.rows| <= 1
    && forall r <- u.rows ::
         && r.archiveId > 0 && u.frozen && u.place == At(r.path)
         && r.size == |u.file| && r.sha == u.meta.sha == Sha256(u.file)
  }

  ghost predicate SessionInv(u: Upload, now: nat, ttl: Ttl) {
    u.keys.session.Present? ==>
      var h := u.keys.session.value;
      && DigestsOf(u.keys) == u.registered
      && (u.keys.digests.Present? ==> u.keys.session.expiry <= u.keys.digests.expiry)
      && (h.state == UPLOADING ==> u.keys.session.expiry <= now + ttl.session)
      && (h.state != UPLOADING ==> u.frozen)
      && (h.state == FAILED ==> Sha256(u.file) != u.meta.sha)
      && (h.state == ARCHIVED ==> u.rows != [] && u.rows[0].archiveId == h.archiveId)
  }

  ghost predicate ChunksInv(u: Upload)
    requires WellFormed(u)
  {
    && BitsOf(u.keys) <= u.everDone <= u.registered.Keys
    && (forall c <- u.registered :: c < Count(u.meta))
    && (forall c <- u.everDone :: u.registered[c] == Sha256(RegionOf(u.file, u.meta, c)))
    && (u.frozen ==> forall c: nat :: c < Count(u.meta) ==> c in u.everDone)
  }

  ghost predicate Inv(u: Upload, now: nat, ttl: Ttl) {
    && WellFormed(u)
    && SessionInv(u, now, ttl) && ChunksInv(u) && RowsInv(u)
    && (forall w <- u.writers :: WriterInv(u, u.writers[w]))
    && (forall k <- u.completers :: CompleterInv(u, u.completers[k]))
  }

  /** What a step may never undo. */
  ghost predicate Keeps(u: Upload, v: Upload) {
    && WellFormed(u) && ChunksInv(u)
    && v.meta == u.meta && |v.file| == |u.file|
    && (forall c <- u.registered :: c in v.registered && v.registered[c] == u.registered[c])
    && u.everDone <= v.everDone
    && (forall c <- u.everDone :: RegionOf(v.file, v.meta, c) == RegionOf(u.file, u.meta, c))
    && (u.frozen ==> v.frozen && v.file == u.file)
    && (u.place.At? ==> v.place == u.place)
    && (u.rows != [] ==> v.rows == u.rows)
  }

  // ---------------------------------------------------------------- pwrite

  lemma OverwriteElsewhere(file: Bytes, off: nat, data: Bytes, lo: nat, len: nat)
    requires off + |data| <= |file| && lo + len <= |file|
    requires off + |data| <= lo || lo + len <= off
    ensures |Overwrite(file, off, data)| == |file|
    ensures Overwrite(file, off, data)[lo..lo + len] == file[lo..lo + len]
  {
  }

  /** Writing the next piece of `body` extends the prefix already written ... */
  lemma OverwriteExtends(file: Bytes, base: nat, body: Bytes, k: nat, n: nat)
    requires base + |body| <= |file| && k + n <= |body|
    requires HoldsPrefix(file, base, body, k)
    ensures HoldsPrefix(Overwrite(file, base + k, body[k..k + n]), base, body, k + n)
  {
    var out := Overwrite(file, base + k, body[k..k + n]);
    var piece := out[base..base + k + n];
    forall i | 0 <= i < |piece|
      ensures piece[i] == body[..k + n][i]
    {
      if i < k {
        assert file[base..base + k][i] == body[..k][i];
      }
    }
  }

  /** ... and never shortens a prefix somebody else wrote from the same body. */
  lemma OverwritePreserves(file: Bytes, base: nat, body: Bytes, k: nat, n: nat, j: nat)
    requires base + |body| <= |file| && k + n <= |body| && j <= |body|
    requires HoldsPrefix(file, base, body, j)
    ensures HoldsPrefix(Overwrite(file, base + k, body[k..k + n]), base, body, j)
  {
    var out := Overwrite(file, base + k, body[k..k + n]);
    forall i: nat | i < j
      ensures out[base..base + j][i] == body[..j][i]
    {
      assert file[base..base + j][i] == body[..j][i];
      if k <= i < k + n {
        assert out[base + i] == body[k..k + n][i - k];
      }
    }
    assert out[base..base + j] == body[..j];
  }

  /** Writing a region's own bytes again leaves the file as it is. */
  lemma OverwriteSame(file: Bytes, base: nat, body: Bytes, k: nat, n: nat)
    requires base + |body| <= |file| && k + n <= |body|
    requires HoldsPrefix(file, base, body, |body|)
    ensures Overwrite(file, base + k, body[k..k + n]) == file
  {
    assert file[base..base + |body|] == body;
    var out := Overwrite(file, base + k, body[k..k + n]);
    forall i: nat | i < |file|
      ensures out[i] == file[i]
    {
      if base + k <= i < base + k + n {
        assert file[base..base + |body|][i - base] == body[i - base];
      }
    }
  }

  // ---------------------------------------------------------------- preservation

  /** Nothing that the invariant protects moved between `u` and `v`. */
  ghost predicate Frame(u: Upload, v: Upload) {
    && v.meta == u.meta && v.file == u.file && v.registered == u.registered && v.everDone == u.everDone
    && v.frozen == u.frozen && BitsOf(v.keys) <= BitsOf(u.keys)
    && (u.place.At? ==> v.place == u.place)
    && (u.rows != [] ==> v.rows == u.rows)
  }

  lemma WriterFrame(u: Upload, v: Upload, w: Writer)
    requires WellFormed(u)
    requires v.meta == u.meta && v.file == u.file && u.everDone <= v.everDone
    requires forall c <- u.registered :: c in v.registered && v.registered[c] == u.registered[c]
    requires WriterInv(u, w)
    ensures WriterInv(v, w)
  {
  }

  lemma CompleterFrame(u: Upload, v: Upload, k: Completer)
    requires v.meta == u.meta && (u.frozen ==> v.frozen && v.file == u.file)
    requires u.place.At? ==> v.place == u.place
    requires u.rows != [] ==> v.rows == u.rows
    requires CompleterInv(u, k)
    ensures CompleterInv(v, k)
  {
  }

  lemma FrameInv(u: Upload, v: Upload, now: nat, ttl: Ttl)
    requires Inv(u, now, ttl) && Frame(u, v)
    requires SessionInv(v, now, ttl) && RowsInv(v)
    requires forall w <- v.writers :: (w in u.writers && v.writers[w] == u.writers[w])
                                      || WriterInv(v, v.writers[w])
    requires forall k <- v.completers :: (k in u.completers && v.completers[k] == u.completers[k])
                                         || CompleterInv(v, v.completers[k])
    ensures Inv(v, now, ttl) && Keeps(u, v)
  {
    forall w <- v.writers
      ensures WriterInv(v, v.writers[w])
    {
      if w in u.writers && v.writers[w] == u.writers[w] {
        WriterFrame(u, v, u.writers[w]);
      }
    }
    forall k <- v.completers
      ensures CompleterInv(v, v.completers[k])
    {
      if k in u.completers && v.completers[k] == u.completers[k] {
        CompleterFrame(u, v, u.completers[k]);
      }
    }
  }

  lemma AllocatedInv(u: Upload, now: nat, ttl: Ttl)
    requires Allocated(u)
    ensures Inv(u, now, ttl)
  {
  }

  lemma ElapseInv(u: Upload, before: nat, now: nat, ttl: Ttl)
    requires Inv(u, before, ttl) && before <= now
    ensures Inv(Elapse(u, now), now, ttl) && Keeps(u, Elapse(u, now))
  {
    assert SessionInv(u, now, ttl);
    FrameInv(u, Elapse(u, now), now, ttl);
  }

  /** The create script succeeds for a freshly allocated upload. */
  lemma CreateInv(u: Upload, now: nat, ttl: Ttl)
    requires Inv(u, now, ttl) && u.keys == EMPTY_KEYS && u.registered == map[]
    ensures var v := u.(keys := EMPTY_KEYS.(session := Fresh(now + ttl.session)));
            Inv(v, now, ttl) && Keeps(u, v)
  {
    FrameInv(u, u.(keys := EMPTY_KEYS.(session := Fresh(now + ttl.session))), now, ttl);
  }

  // ---- writers

  /** A step that keeps the file and only adds registrations and finished chunks keeps what the other
      requests rely on. */
  lemma OthersHold(u: Upload, v: Upload, w: nat)
    requires WellFormed(u) && v.meta == u.meta && v.file == u.file && u.everDone <= v.everDone
    requires forall c <- u.registered :: c in v.registered && v.registered[c] == u.registered[c]
    requires v.place == u.place && v.rows == u.rows && (u.frozen ==> v.frozen)
    requires forall x <- u.writers :: WriterInv(u, u.writers[x])
    requires forall k <- u.completers :: CompleterInv(u, u.completers[k])
    ensures forall x <- u.writers :: WriterInv(v, u.writers[x])
    ensures forall k <- u.completers :: CompleterInv(v, u.completers[k])
  {
    hide WriterInv, CompleterInv;
    forall x <- u.writers
      ensures WriterInv(v, u.writers[x])
    {
      WriterFrame(u, v, u.writers[x]);
    }
    forall k <- u.completers
      ensures CompleterInv(v, u.completers[k])
    {
      CompleterFrame(u, v, u.completers[k]);
    }
  }

  /** A granted chunk: its digest is registered. */
  function Grant(u: Upload, now: nat, ttl: Ttl, w: nat, c: nat, body: Bytes): Upload {
    u.(keys := BeginChunkKeys(u.keys, c, Sha256(body), now + ttl.session),
       writers := u.writers[w := Granted(c, body)],
       registered := u.registered[c := Sha256(body)])
  }

  lemma GrantInv(u: Upload, now: nat, ttl: Ttl, w: nat, c: nat, body: Bytes)
    requires Inv(u, now, ttl) && w in u.writers && u.writers[w] == Looked(c, body)
    requires BeginChunkStatusOf(u.keys, c, Sha256(body)) == Writable
    ensures var v := Grant(u, now, ttl, w, c, body); Inv(v, now, ttl) && Keeps(u, v)
  {
    hide WriterInv, CompleterInv, SessionInv, ChunksInv, RowsInv, BeginChunkKeys, BeginChunkStatusOf;
    var v := Grant(u, now, ttl, w, c, body);
    GrantParts(u, now, ttl, w, c, body);
    OthersHold(u, v, w);
  }

  lemma GrantParts(u: Upload, now: nat, ttl: Ttl, w: nat, c: nat, body: Bytes)
    requires Inv(u, now, ttl) && w in u.writers && u.writers[w] == Looked(c, body)
    requires BeginChunkStatusOf(u.keys, c, Sha256(body)) == Writable
    ensures var v := Grant(u, now, ttl, w, c, body);
            && SessionInv(v, now, ttl) && ChunksInv(v) && RowsInv(v) && WriterInv(v, Granted(c, body))
            && forall d <- u.registered :: d in v.registered && v.registered[d] == u.registered[d]
  {
    hide CompleterInv, RegionOf;
    assert WriterInv(u, u.writers[w]);
  }

  lemma BeginInv(u: Upload, now: nat, ttl: Ttl, w: nat)
    requires Inv(u, now, ttl)
    ensures var v := StepWriter(u, now, ttl, WriterBegin(w)); Inv(v, now, ttl) && Keeps(u, v)
  {
    var v := StepWriter(u, now, ttl, WriterBegin(w));
    if w in u.writers && u.writers[w].Looked? {
      var Looked(c, body) := u.writers[w];
      if BeginChunkStatusOf(u.keys, c, Sha256(body)) == Writable {
        hide Inv, Keeps, BeginChunkKeys, BeginChunkStatusOf;
        GrantInv(u, now, ttl, w, c, body);
        assert v == Grant(u, now, ttl, w, c, body);
      } else {
        FrameInv(u, v, now, ttl);
      }
    }
  }

  lemma PwriteInv(u: Upload, now: nat, ttl: Ttl, w: nat, n: nat)
    requires Inv(u, now, ttl)
    ensures var v := StepWriter(u, now, ttl, WriterPwrite(w, n)); Inv(v, now, ttl) && Keeps(u, v)
  {
    var v := StepWriter(u, now, ttl, WriterPwrite(w, n));
    if v != u {
      var Writing(c, body, k) := u.writers[w];
      assert WriterInv(u, u.writers[w]);
      ChunkFits(u.meta, c);
      if c in u.everDone {
        PwriteDone(u, now, ttl, w, c, body, k, n);
      } else {
        PwriteFresh(u, now, ttl, w, c, body, k, n);
      }
    }
  }

  lemma ChunkFits(m: Meta, c: nat)
    requires ValidMeta(m) && c < Count(m)
    ensures m.start[c] < m.start[c + 1] <= m.fileSize
  {
    assert m.start[c + 1] <= m.start[Count(m)];
  }

  /** A late write into a finished chunk, frozen and renamed or not: the bytes are the same again. */
  lemma PwriteDone(u: Upload, now: nat, ttl: Ttl, w: nat, c: nat, body: Bytes, k: nat, n: nat)
    requires Inv(u, now, ttl) && w in u.writers && u.writers[w] == Writing(c, body, k)
    requires WriterInv(u, u.writers[w])
    requires c in u.everDone && k + n <= |body| && u.meta.start[c] + |body| <= |u.file|
    ensures var v := Pwrite(u, w, c, body, k, n);
            v.file == u.file && Inv(v, now, ttl) && Keeps(u, v)
  {
    hide Inv, Keeps, WriterInv, Overwrite, HoldsPrefix, ChunksInv;
    WritingParts(u, now, ttl, c, body, k);
    SamePiece(u, c, body, k, n);
    WritingInv(u, c, body, k + n);
    WriterMoved(u, now, ttl, w, Writing(c, body, k + n));
  }

  lemma WritingParts(u: Upload, now: nat, ttl: Ttl, c: nat, body: Bytes, k: nat)
    requires Inv(u, now, ttl) && WriterInv(u, Writing(c, body, k))
    ensures WellFormed(u) && ChunksInv(u) && GrantedInv(u, c, body)
  {
  }

  lemma WritingInv(u: Upload, c: nat, body: Bytes, k: nat)
    requires WellFormed(u) && GrantedInv(u, c, body) && HoldsPrefix(u.file, u.meta.start[c], body, k)
    ensures WriterInv(u, Writing(c, body, k))
  {
  }

  lemma SamePiece(u: Upload, c: nat, body: Bytes, k: nat, n: nat)
    requires WellFormed(u) && ChunksInv(u) && GrantedInv(u, c, body) && c in u.everDone
    requires k + n <= |body| && u.meta.start[c] + |body| <= |u.file|
    ensures Overwrite(u.file, u.meta.start[c] + k, body[k..k + n]) == u.file
    ensures HoldsPrefix(u.file, u.meta.start[c], body, k + n)
  {
    assert Sha256(body) == Sha256(RegionOf(u.file, u.meta, c));
    OverwriteSame(u.file, u.meta.start[c], body, k, n);
    assert u.file[u.meta.start[c]..u.meta.start[c] + |body|] == body;
    assert u.file[u.meta.start[c]..u.meta.start[c] + k + n] == body[..k + n];
  }

  lemma WriterMoved(u: Upload, now: nat, ttl: Ttl, w: nat, x: Writer)
    requires Inv(u, now, ttl) && WriterInv(u, x)
    ensures var v := u.(writers := u.writers[w := x]); Inv(v, now, ttl) && Keeps(u, v)
  {
    var v := u.(writers := u.writers[w := x]);
    WriterFrame(u, v, x);
    FrameInv(u, v, now, ttl);
  }

  /** What another open descriptor wrote before stays written. */
  lemma PwritePeer(file: Bytes, m: Meta, c: nat, body: Bytes, k: nat, n: nat, d: nat, other: Bytes, j: nat)
    requires ValidMeta(m) && |file| == m.fileSize && c < Count(m) && d < Count(m)
    requires |body| == Length(m, c) && k + n <= |body|
    requires |other| == Length(m, d) && (c == d ==> other == body)
    requires m.start[c] + |body| <= |file|
    requires HoldsPrefix(file, m.start[d], other, j)
    ensures HoldsPrefix(Overwrite(file, m.start[c] + k, body[k..k + n]), m.start[d], other, j)
  {
    if d == c {
      OverwritePreserves(file, m.start[c], body, k, n, j);
    } else {
      OtherPrefix(file, m, c, body, k, n, d, other, j);
    }
  }

  lemma PwriteWriters(u: Upload, w: nat, c: nat, body: Bytes, k: nat, n: nat, x: nat)
    requires WellFormed(u)
    requires w in u.writers && u.writers[w] == Writing(c, body, k) && WriterInv(u, u.writers[w])
    requires k + n <= |body| && u.meta.start[c] + |body| <= |u.file|
    requires x in u.writers && x != w && WriterInv(u, u.writers[x])
    ensures var v := Pwrite(u, w, c, body, k, n); |v.file| == |u.file| && WriterInv(v, v.writers[x])
  {
    hide Overwrite, HoldsPrefix, ValidMeta;
    if u.writers[x].Writing? {
      var Writing(d, other, j) := u.writers[x];
      assert d == c ==> Sha256(other) == u.registered[c] == Sha256(body);
      PwritePeer(u.file, u.meta, c, body, k, n, d, other, j);
    }
  }

  lemma PwriteFresh(u: Upload, now: nat, ttl: Ttl, w: nat, c: nat, body: Bytes, k: nat, n: nat)
    requires Inv(u, now, ttl) && w in u.writers && u.writers[w] == Writing(c, body, k)
    requires WriterInv(u, u.writers[w])
    requires c !in u.everDone && k + n <= |body| && u.meta.start[c] + |body| <= |u.file|
    ensures var v := Pwrite(u, w, c, body, k, n); Inv(v, now, ttl) && Keeps(u, v)
  {
    var v := Pwrite(u, w, c, body, k, n);
    assert !u.frozen;
    PwriteAll(u, w, c, body, k, n);
    PwriteChunks(u, w, c, body, k, n);
  }

  lemma PwriteAll(u: Upload, w: nat, c: nat, body: Bytes, k: nat, n: nat)
    requires WellFormed(u) && !u.frozen && w in u.writers && u.writers[w] == Writing(c, body, k)
    requires WriterInv(u, u.writers[w]) && c < Count(u.meta)
    requires forall x <- u.writers :: WriterInv(u, u.writers[x])
    requires forall x <- u.completers :: CompleterInv(u, u.completers[x])
    requires k + n <= |body| && u.meta.start[c] + |body| <= |u.file|
    ensures var v := Pwrite(u, w, c, body, k, n);
            && WellFormed(v) && (forall x <- v.writers :: WriterInv(v, v.writers[x]))
            && (forall x <- v.completers :: CompleterInv(v, v.completers[x]))
  {
    hide CompleterInv, WriterInv, Overwrite;
    var v := Pwrite(u, w, c, body, k, n);
    PwriteOwn(u, w, c, body, k, n);
    forall x <- v.writers
      ensures WriterInv(v, v.writers[x])
    {
      if x != w {
        PwriteWriters(u, w, c, body, k, n, x);
      }
    }
    forall x <- v.completers
      ensures CompleterInv(v, v.completers[x])
    {
      CompleterFrame(u, v, u.completers[x]);
    }
  }

  lemma PwriteOwn(u: Upload, w: nat, c: nat, body: Bytes, k: nat, n: nat)
    requires WellFormed(u) && w in u.writers && u.writers[w] == Writing(c, body, k) && WriterInv(u, u.writers[w])
    requires k + n <= |body| && u.meta.start[c] + |body| <= |u.file|
    ensures var v := Pwrite(u, w, c, body, k, n);
            WellFormed(v) && WriterInv(v, v.writers[w])
  {
    OverwriteExtends(u.file, u.meta.start[c], body, k, n);
  }

  lemma PwriteChunks(u: Upload, w: nat, c: nat, body: Bytes, k: nat, n: nat)
    requires WellFormed(u) && ChunksInv(u)
    requires !u.frozen && GrantedInv(u, c, body)
    requires c !in u.everDone && k + n <= |body| && u.meta.start[c] + |body| <= |u.file|
    ensures var v := Pwrite(u, w, c, body, k, n);
            && |v.file| == |u.file| && ChunksInv(v)
            && forall d <- u.everDone :: RegionOf(v.file, v.meta, d) == RegionOf(u.file, u.meta, d)
  {
    var v := Pwrite(u, w, c, body, k, n);
    forall d <- u.everDone
      ensures |v.file| == |u.file| && RegionOf(v.file, u.meta, d) == RegionOf(u.file, u.meta, d)
    {
      OtherRegion(u.file, u.meta, c, body, k, n, d);
    }
  }

  /** A write into chunk `c` leaves the region of any other chunk alone. */
  lemma OtherRegion(file: Bytes, m: Meta, c: nat, body: Bytes, k: nat, n: nat, d: nat)
    requires ValidMeta(m) && |file| == m.fileSize && c < Count(m) && d < Count(m) && c != d
    requires |body| == Length(m, c) && k + n <= |body|
    requires m.start[c] + k + n <= |file|
    ensures RegionOf(Overwrite(file, m.start[c] + k, body[k..k + n]), m, d) == RegionOf(file, m, d)
  {
    assert c + 1 <= d ==> m.start[c + 1] <= m.start[d];
    assert d + 1 <= c ==> m.start[d + 1] <= m.start[c];
    OverwriteElsewhere(file, m.start[c] + k, body[k..k + n], m.start[d], Length(m, d));
  }

  lemma OtherPrefix(file: Bytes, m: Meta, c: nat, body: Bytes, k: nat, n: nat, d: nat, other: Bytes, j: nat)
    requires ValidMeta(m) && |file| == m.fileSize && c < Count(m) && d < Count(m) && c != d
    requires |body| == Length(m, c) && k + n <= |body|
    requires m.start[c] + k + n <= |file|
    requires |other| == Length(m, d)
    requires HoldsPrefix(file, m.start[d], other, j)
    ensures HoldsPrefix(Overwrite(file, m.start[c] + k, body[k..k + n]), m.start[d], other, j)
  {
    assert c + 1 <= d ==> m.start[c + 1] <= m.start[d];
    assert d + 1 <= c ==> m.start[d + 1] <= m.start[c];
    OverwriteElsewhere(file, m.start[c] + k, body[k..k + n], m.start[d], j);
  }

  /** A finished chunk: its bit is set. */
  ghost function Finish(u: Upload, now: nat, ttl: Ttl, w: nat, c: nat, body: Bytes): Upload
    requires FinishChunkOk(u.keys, c, Sha256(body))
  {
    u.(keys := FinishChunkKeys(u.keys, c, Sha256(body), now + ttl.session),
       writers := u.writers[w := Acknowledged(c, body)],
       everDone := u.everDone + {c})
  }

  lemma FinishParts(u: Upload, now: nat, ttl: Ttl, w: nat, c: nat, body: Bytes)
    requires Inv(u, now, ttl) && w in u.writers && u.writers[w] == Writing(c, body, |body|)
    requires FinishChunkOk(u.keys, c, Sha256(body))
    ensures var v := Finish(u, now, ttl, w, c, body);
            SessionInv(v, now, ttl) && ChunksInv(v) && RowsInv(v) && WriterInv(v, Acknowledged(c, body))
  {
    hide CompleterInv;
    assert WriterInv(u, u.writers[w]);
    assert body == RegionOf(u.file, u.meta, c);
  }

  lemma FinishedInv(u: Upload, now: nat, ttl: Ttl, w: nat, c: nat, body: Bytes)
    requires Inv(u, now, ttl) && w in u.writers && u.writers[w] == Writing(c, body, |body|)
    requires FinishChunkOk(u.keys, c, Sha256(body))
    ensures var v := Finish(u, now, ttl, w, c, body); Inv(v, now, ttl) && Keeps(u, v)
  {
    hide WriterInv, CompleterInv, SessionInv, ChunksInv, RowsInv, FinishChunkKeys, FinishChunkOk;
    FinishParts(u, now, ttl, w, c, body);
    OthersHold(u, Finish(u, now, ttl, w, c, body), w);
  }

  lemma FinishInv(u: Upload, now: nat, ttl: Ttl, w: nat)
    requires Inv(u, now, ttl)
    ensures var v := StepWriter(u, now, ttl, WriterFinish(w)); Inv(v, now, ttl) && Keeps(u, v)
  {
    var v := StepWriter(u, now, ttl, WriterFinish(w));
    if w in u.writers && u.writers[w].Writing? && u.writers[w].written == |u.writers[w].body| {
      var Writing(c, body, _) := u.writers[w];
      if FinishChunkOk(u.keys, c, Sha256(body)) {
        FinishedInv(u, now, ttl, w, c, body);
        assert v == Finish(u, now, ttl, w, c, body);
      } else {
        WriterMoved(u, now, ttl, w, WriterGone);
      }
    } else {
      KeepsItself(u, now, ttl);
    }
  }

  lemma KeepsItself(u: Upload, now: nat, ttl: Ttl)
    requires Inv(u, now, ttl)
    ensures Keeps(u, u)
  {
    hide SessionInv, WriterInv, CompleterInv, RowsInv;
  }

  lemma OpenInv(u: Upload, now: nat, ttl: Ttl, w: nat)
    requires Inv(u, now, ttl)
    ensures var v := StepWriter(u, now, ttl, WriterOpen(w)); Inv(v, now, ttl) && Keeps(u, v)
  {
    var v := StepWriter(u, now, ttl, WriterOpen(w));
    if v != u {
      var Granted(c, body) := u.writers[w];
      assert WriterInv(u, u.writers[w]);
      assert u.meta.start[c] <= u.meta.start[|u.meta.start| - 1];
      assert v.writers[w].Writing? ==> HoldsPrefix(v.file, v.meta.start[c], body, 0);
      FrameInv(u, v, now, ttl);
    }
  }

  lemma WriterLooks(u: Upload, now: nat, ttl: Ttl, e: Event)
    requires Inv(u, now, ttl) && !(e.WriterBegin? || e.WriterPwrite? || e.WriterFinish? || e.WriterOpen?)
    ensures var v := StepWriter(u, now, ttl, e); Inv(v, now, ttl) && Keeps(u, v)
  {
    FrameInv(u, StepWriter(u, now, ttl, e), now, ttl);
  }

  lemma WriterStepInv(u: Upload, now: nat, ttl: Ttl, e: Event)
    requires Inv(u, now, ttl)
    ensures var v := StepWriter(u, now, ttl, e); Inv(v, now, ttl) && Keeps(u, v)
  {
    assert WellFormed(u);
    hide Inv, Keeps, StepWriter, WellFormed;
    match e
    case WriterBegin(w) => BeginInv(u, now, ttl, w);
    case WriterPwrite(w, n) => PwriteInv(u, now, ttl, w, n);
    case WriterFinish(w) => FinishInv(u, now, ttl, w);
    case WriterOpen(w) => OpenInv(u, now, ttl, w);
    case _ => WriterLooks(u, now, ttl, e);
  }

  // ---- completers

  /** A begun completion: the session is frozen under the recorded path. */
  ghost function Freeze(u: Upload, k: nat, path: string, at: nat): Upload
    requires ValidMeta(u.meta)
  {
    u.(keys := BeginCompleteKeys(u.keys, Count(u.meta), at, path),
       completers := u.completers[k := Frozen(path, at)],
       frozen := true)
  }

  predicate MayFreeze(u: Upload)
    requires |u.meta.start| > 0
  {
    BeginCompleteStatusOf(u.keys, Count(u.meta)) in {Ready, Resumable, AlreadyArchived}
  }

  /** As many set bits as chunks means every chunk is done. */
  lemma FreezeParts(u: Upload, now: nat, ttl: Ttl, k: nat, path: string, at: nat)
    requires Inv(u, now, ttl) && MayFreeze(u)
    ensures var v := Freeze(u, k, path, at); SessionInv(v, now, ttl) && ChunksInv(v) && RowsInv(v)
  {
    hide WriterInv, CompleterInv, RegionOf;
    FullBelow(BitsOf(u.keys), Count(u.meta));
  }

  lemma FrozenInv(u: Upload, now: nat, ttl: Ttl, k: nat, path: string, at: nat)
    requires Inv(u, now, ttl) && MayFreeze(u)
    ensures var v := Freeze(u, k, path, at); Inv(v, now, ttl) && Keeps(u, v)
  {
    hide WriterInv, SessionInv, ChunksInv, RowsInv, BeginCompleteKeys, MayFreeze, CompleterInv;
    FreezeParts(u, now, ttl, k, path, at);
    var v := Freeze(u, k, path, at);
    OthersHold(u, v, k);
    FrozenCompleter(v, path, at);
  }

  lemma FrozenCompleter(v: Upload, path: string, at: nat)
    requires v.frozen
    ensures CompleterInv(v, Frozen(path, at))
  {
  }

  lemma CompleterMoved(u: Upload, now: nat, ttl: Ttl, k: nat, x: Completer)
    requires Inv(u, now, ttl) && CompleterInv(u, x)
    ensures var v := u.(completers := u.completers[k := x]); Inv(v, now, ttl) && Keeps(u, v)
  {
    hide WriterInv, CompleterInv;
    var v := u.(completers := u.completers[k := x]);
    CompleterFrame(u, v, x);
    FrameInv(u, v, now, ttl);
  }

  lemma FreezeInv(u: Upload, now: nat, ttl: Ttl, k: nat)
    requires Inv(u, now, ttl)
    ensures var v := StepComplete(u, now, ttl, CompleterBegin(k)); Inv(v, now, ttl) && Keeps(u, v)
  {
    var v := StepComplete(u, now, ttl, CompleterBegin(k));
    if k in u.completers && u.completers[k].Chosen? {
      var Chosen(path, at) := u.completers[k];
      if MayFreeze(u) {
        FrozenInv(u, now, ttl, k, path, at);
        assert v == Freeze(u, k, path, at);
      } else {
        CompleterMoved(u, now, ttl, k, CompleterGone);
      }
    } else {
      KeepsItself(u, now, ttl);
    }
  }

  /** The steps of a completer that only look. */
  lemma LookInv(u: Upload, now: nat, ttl: Ttl, e: Event)
    requires Inv(u, now, ttl)
    requires e.CompleterLookup? || e.CompleterFind? || e.CompleterStat? || e.CompleterOpen? || e.CompleterRead?
             || e.CompleterVerdict? || e.CompleterResolve? || e.CompleterFail?
    ensures var v := StepComplete(u, now, ttl, e); Inv(v, now, ttl) && Keeps(u, v)
  {
    var v := StepComplete(u, now, ttl, e);
    if v != u {
      assert e.k in u.completers ==> CompleterInv(u, u.completers[e.k]);
      assert v == u.(completers := u.completers[e.k := v.completers[e.k]]);
      LookCompleter(u, now, ttl, e);
      FrameInv(u, v, now, ttl);
    }
  }

  lemma LookCompleter(u: Upload, now: nat, ttl: Ttl, e: Event)
    requires Inv(u, now, ttl)
    requires e.CompleterLookup? || e.CompleterFind? || e.CompleterStat? || e.CompleterOpen? || e.CompleterRead?
             || e.CompleterVerdict? || e.CompleterResolve? || e.CompleterFail?
    requires e.k in u.completers ==> CompleterInv(u, u.completers[e.k])
    requires StepComplete(u, now, ttl, e) != u
    ensures var v := StepComplete(u, now, ttl, e);
            e.k in v.completers && CompleterInv(v, v.completers[e.k])
  {
    if e.CompleterRead? {
      var d := u.completers[e.k].data;
      assert u.file[..|d|] + u.file[|d|..|d| + e.count] == u.file[..|d| + e.count];
    }
    if e.CompleterVerdict? {
      assert u.file[..|u.file|] == u.file;
    }
  }

  // The steps of a completer that leave a trace: rename, insert, mark.

  lemma RenamedInv(u: Upload, now: nat, ttl: Ttl, k: nat, path: string, at: nat)
    requires Inv(u, now, ttl) && u.place == Temp && u.frozen && Sha256(u.file) == u.meta.sha
    ensures var v := u.(place := At(path), completers := u.completers[k := Stored(path, at)]);
            Inv(v, now, ttl) && Keeps(u, v)
  {
    hide WriterInv, ChunksInv;
    FrameInv(u, u.(place := At(path), completers := u.completers[k := Stored(path, at)]), now, ttl);
  }

  lemma RenameInv(u: Upload, now: nat, ttl: Ttl, k: nat)
    requires Inv(u, now, ttl)
    ensures var v := StepComplete(u, now, ttl, CompleterRename(k)); Inv(v, now, ttl) && Keeps(u, v)
  {
    if k in u.completers && u.completers[k].Verified? {
      hide WriterInv, SessionInv, ChunksInv, RowsInv, Keeps;
      var Verified(path, at, final) := u.completers[k];
      assert CompleterInv(u, u.completers[k]);
      if final {
        CompleterMoved(u, now, ttl, k, Stored(path, at));
      } else if u.place == Temp {
        RenamedInv(u, now, ttl, k, path, at);
      } else {
        CompleterMoved(u, now, ttl, k, CompleterGone);
      }
    } else {
      KeepsItself(u, now, ttl);
    }
  }

  lemma InsertInv(u: Upload, now: nat, ttl: Ttl, k: nat, id: nat)
    requires Inv(u, now, ttl)
    ensures var v := StepComplete(u, now, ttl, CompleterInsert(k, id)); Inv(v, now, ttl) && Keeps(u, v)
  {
    hide WriterInv, ChunksInv;
    var v := StepComplete(u, now, ttl, CompleterInsert(k, id));
    if v != u {
      assert CompleterInv(u, u.completers[k]);
      FrameInv(u, v, now, ttl);
    } else {
      KeepsItself(u, now, ttl);
    }
  }

  lemma ArchivedInv(u: Upload, now: nat, ttl: Ttl, k: nat)
    requires Inv(u, now, ttl)
    ensures var v := StepComplete(u, now, ttl, CompleterMarkArchived(k)); Inv(v, now, ttl) && Keeps(u, v)
  {
    hide WriterInv, ChunksInv;
    var v := StepComplete(u, now, ttl, CompleterMarkArchived(k));
    if v != u {
      assert CompleterInv(u, u.completers[k]);
      FrameInv(u, v, now, ttl);
    } else {
      KeepsItself(u, now, ttl);
    }
  }

  lemma FailedInv(u: Upload, now: nat, ttl: Ttl, k: nat)
    requires Inv(u, now, ttl)
    ensures var v := StepComplete(u, now, ttl, CompleterMarkFailed(k)); Inv(v, now, ttl) && Keeps(u, v)
  {
    hide WriterInv, ChunksInv;
    var v := StepComplete(u, now, ttl, CompleterMarkFailed(k));
    if v != u {
      assert CompleterInv(u, u.completers[k]);
      FrameInv(u, v, now, ttl);
    } else {
      KeepsItself(u, now, ttl);
    }
  }

  lemma CompleterStepInv(u: Upload, now: nat, ttl: Ttl, e: Event)
    requires Inv(u, now, ttl)
    ensures var v := StepComplete(u, now, ttl, e); Inv(v, now, ttl) && Keeps(u, v)
  {
    if e.CompleterBegin? {
      FreezeInv(u, now, ttl, e.k);
    } else if e.CompleterRename? {
      RenameInv(u, now, ttl, e.k);
    } else if e.CompleterInsert? {
      InsertInv(u, now, ttl, e.k, e.freshId);
    } else if e.CompleterMarkArchived? {
      ArchivedInv(u, now, ttl, e.k);
    } else if e.CompleterMarkFailed? {
      FailedInv(u, now, ttl, e.k);
    } else if e.CompleterLookup? || e.CompleterFind? || e.CompleterStat? || e.CompleterOpen?
              || e.CompleterRead? || e.CompleterVerdict? || e.CompleterResolve? || e.CompleterFail?
    {
      LookInv(u, now, ttl, e);
    }
  }

  lemma CleanerStepInv(u: Upload, now: nat, ttl: Ttl, e: Event)
    requires Inv(u, now, ttl)
    ensures var v := StepCleaner(u, e); Inv(v, now, ttl) && Keeps(u, v)
  {
    hide WriterInv, CompleterInv;
    FrameInv(u, StepCleaner(u, e), now, ttl);
  }

  /** Every step of every writer, completer and of the cleanup thread keeps the invariant,
      changes no finished chunk, no frozen file, no archived path and no row. */
  lemma StepInv(u: Upload, now: nat, ttl: Ttl, e: Event)
    requires Inv(u, now, ttl)
    ensures Inv(Next(u, now, ttl, e), now, ttl)
    ensures Keeps(u, Next(u, now, ttl, e))
  {
    if e.CleanerLookup? || e.CleanerUnlink? || e.CleanerDelete? {
      CleanerStepInv(u, now, ttl, e);
    } else if e.WriterLookup? || e.WriterBegin? || e.WriterOpen? || e.WriterPwrite? || e.WriterFinish?
              || e.WriterFail?
    {
      WriterStepInv(u, now, ttl, e);
    } else {
      CompleterStepInv(u, now, ttl, e);
    }
  }
}
