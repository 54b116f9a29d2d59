// What a client that repeats a chunk can expect, and that every open upload can be brought to its end.

module UploadResume {
  import opened Common
  import opened UploadGuarantees
  import opened UploadPaths
  import opened UploadProtocol
  import opened UploadRetry
  import opened UploadScripts
  import opened UploadServer

  // ---------------------------------------------------------------- single steps of a chunk request

  predicate Fits(u: Upload, c: nat, body: Bytes)
    requires |u.meta.start| > 0
  {
    c < Count(u.meta) && |body| == Length(u.meta, c)
  }

  lemma WriterLooksUp(u: Upload, now: nat, ttl: Ttl, w: nat, c: nat, body: Bytes)
    requires WellFormed(u) && w !in u.writers
    ensures Next(u, now, ttl, WriterLookup(w, c, body))
         == if SessionIs(u, UPLOADING) && Fits(u, c, body) then u.(writers := u.writers[w := Looked(c, body)]) else u
  {
    hide StepComplete, StepCleaner;
  }

  /** The chunk is registered for the request. */
  function WithGrant(u: Upload, at: nat, w: nat, c: nat, body: Bytes): Upload {
    var digests := (if u.keys.digests.Present? then u.keys.digests.value else map[])[c := Sha256(body)];
    u.(keys := u.keys.(digests := Present(digests, at)), registered := u.registered[c := Sha256(body)],
       writers := u.writers[w := Granted(c, body)])
  }

  lemma WriterBegins(u: Upload, now: nat, ttl: Ttl, w: nat, c: nat, body: Bytes)
    requires WellFormed(u) && w in u.writers && u.writers[w] == Looked(c, body) && SessionIs(u, UPLOADING)
    ensures var known := u.keys.digests.Present? && c in u.keys.digests.value;
            var done := u.keys.bits.Present? && c in u.keys.bits.value;
            Next(u, now, ttl, WriterBegin(w))
            == if known && u.keys.digests.value[c] != Sha256(body) then u.(writers := u.writers[w := WriterGone])
               else if known && done then u.(writers := u.writers[w := Acknowledged(c, body)])
               else WithGrant(u, now + ttl.session, w, c, body)
  {
    hide StepComplete, StepCleaner;
    BeginChunkIff(u.keys, c, Sha256(body));
  }

  lemma WriterOpens(u: Upload, now: nat, ttl: Ttl, w: nat, c: nat, body: Bytes)
    requires WellFormed(u) && w in u.writers && u.writers[w] == Granted(c, body)
    ensures Next(u, now, ttl, WriterOpen(w))
         == u.(writers := u.writers[w := if u.place == Temp then Writing(c, body, 0) else WriterGone])
  {
    hide StepComplete, StepCleaner;
  }

  lemma WriterWrites(u: Upload, now: nat, ttl: Ttl, w: nat, c: nat, body: Bytes)
    requires WellFormed(u) && w in u.writers && u.writers[w] == Writing(c, body, 0) && Fits(u, c, body)
    ensures var v := Next(u, now, ttl, WriterPwrite(w, |body|));
            && |v.file| == |u.file|
            && v == u.(file := v.file, writers := u.writers[w := Writing(c, body, |body|)])
            && RegionOf(v.file, u.meta, c) == body
            && forall d: nat :: d < Count(u.meta) && d != c ==>
                 RegionOf(v.file, u.meta, d) == RegionOf(u.file, u.meta, d)
  {
    hide StepComplete, StepCleaner, Overwrite;
    ChunkFits(u.meta, c);
    assert u.meta.start[c + 1] <= u.meta.fileSize;
    assert body[0..0 + |body|] == body;
    OverwriteIs(u.file, u.meta.start[c], body);
    forall d: nat | d < Count(u.meta) && d != c
      ensures RegionOf(Overwrite(u.file, u.meta.start[c], body), u.meta, d) == RegionOf(u.file, u.meta, d)
    {
      OtherRegion(u.file, u.meta, c, body, 0, |body|, d);
    }
  }

  lemma OverwriteIs(file: Bytes, off: nat, data: Bytes)
    requires off + |data| <= |file|
    ensures Overwrite(file, off, data)[off..off + |data|] == data
  {
  }

  /** The chunk is finished: its bit is set and all keys live on. */
  ghost predicate Finishes(u: Upload, v: Upload, at: nat, w: nat, c: nat, body: Bytes) {
    && v == u.(keys := v.keys, everDone := u.everDone + {c}, writers := u.writers[w := Acknowledged(c, body)])
    && v.keys.session.Present? && u.keys.session.Present?
    && v.keys.session == Present(u.keys.session.value.(expiresAt := at), at)
    && BitsOf(v.keys) == BitsOf(u.keys) + {c} && DigestsOf(v.keys) == DigestsOf(u.keys)
  }

  lemma WriterFinishes(u: Upload, now: nat, ttl: Ttl, w: nat, c: nat, body: Bytes)
    requires WellFormed(u) && w in u.writers && u.writers[w] == Writing(c, body, |body|) && SessionIs(u, UPLOADING)
    requires u.keys.digests.Present? && c in u.keys.digests.value && u.keys.digests.value[c] == Sha256(body)
    ensures Finishes(u, Next(u, now, ttl, WriterFinish(w)), now + ttl.session, w, c, body)
  {
    hide StepComplete, StepCleaner;
  }

  lemma WriterRests(u: Upload, now: nat, ttl: Ttl, w: nat, e: Event)
    requires WellFormed(u) && (w in u.writers ==> u.writers[w].WriterGone? || u.writers[w].Acknowledged?)
    requires e == WriterBegin(w) || e == WriterOpen(w) || (e.WriterPwrite? && e.w == w) || e == WriterFinish(w)
    ensures Next(u, now, ttl, e) == u
  {
    hide StepComplete, StepCleaner;
  }

  // ---------------------------------------------------------------- one undisturbed chunk request

  /** One PUT of a chunk from lookup to answer, none of its steps interrupted. */
  ghost function Sent(u: Upload, now: nat, ttl: Ttl, w: nat, c: nat, body: Bytes): Upload
    requires WellFormed(u)
  {
    var begun := Then(Then(u, now, ttl, WriterLookup(w, c, body)), now, ttl, WriterBegin(w));
    var written := Then(Then(begun, now, ttl, WriterOpen(w)), now, ttl, WriterPwrite(w, |body|));
    Then(written, now, ttl, WriterFinish(w))
  }

  lemma SentInv(u: Upload, now: nat, ttl: Ttl, w: nat, c: nat, body: Bytes)
    requires Inv(u, now, ttl)
    ensures Inv(Sent(u, now, ttl, w, c, body), now, ttl)
  {
    hide Inv, Next;
    ThenInv(u, now, ttl, WriterLookup(w, c, body));
    var looked := Then(u, now, ttl, WriterLookup(w, c, body));
    ThenInv(looked, now, ttl, WriterBegin(w));
    var begun := Then(looked, now, ttl, WriterBegin(w));
    ThenInv(begun, now, ttl, WriterOpen(w));
    var atFile := Then(begun, now, ttl, WriterOpen(w));
    ThenInv(atFile, now, ttl, WriterPwrite(w, |body|));
    ThenInv(Then(atFile, now, ttl, WriterPwrite(w, |body|)), now, ttl, WriterFinish(w));
  }

  lemma ThenInv(u: Upload, now: nat, ttl: Ttl, e: Event)
    requires Inv(u, now, ttl)
    ensures WellFormed(u) && Inv(Then(u, now, ttl, e), now, ttl)
  {
    hide Next;
    assert WellFormed(u);
    hide Inv;
    StepInv(u, now, ttl, e);
  }

  /** The chunk is finished with this content. */
  ghost predicate Holds(u: Upload, c: nat, body: Bytes) {
    && c in BitsOf(u.keys) && c in DigestsOf(u.keys) && DigestsOf(u.keys)[c] == Sha256(body)
  }

  /** What a chunk request needs: an open session, a chunk of the upload with a body of its length that no other
      content was registered for, and the temporary file, unless the chunk is finished already. */
  ghost predicate Sendable(u: Upload, c: nat, body: Bytes)
    requires |u.meta.start| > 0
  {
    && SessionIs(u, UPLOADING) && Fits(u, c, body)
    && (c in DigestsOf(u.keys) ==> DigestsOf(u.keys)[c] == Sha256(body))
    && (u.place == Temp || Holds(u, c, body))
  }

  predicate Acked(u: Upload, w: nat) {
    w in u.writers && u.writers[w].Acknowledged?
  }

  /** What a chunk request leaves alone. */
  ghost predicate SameOutside(u: Upload, v: Upload, w: nat) {
    && v.meta == u.meta && v.place == u.place && v.rows == u.rows && v.completers == u.completers
    && v.frozen == u.frozen && v.cleaner == u.cleaner && v.writers.Keys <= u.writers.Keys + {w}
    && (v.keys.session.Present? <==> u.keys.session.Present?)
    && (u.keys.session.Present? ==>
          v.keys.session.value == u.keys.session.value.(expiresAt := v.keys.session.value.expiresAt))
  }

  /** What the acknowledged request has done: the chunk holds the body, and every other one is as it was. */
  ghost predicate SentOk(u: Upload, v: Upload, c: nat, body: Bytes) {
    && WellFormed(u) && WellFormed(v) && v.meta == u.meta && c < Count(u.meta)
    && BitsOf(v.keys) == BitsOf(u.keys) + {c}
    && DigestsOf(v.keys) == DigestsOf(u.keys)[c := Sha256(body)]
    && RegionOf(v.file, u.meta, c) == body
    && forall d: nat :: d < Count(u.meta) && d != c ==>
         RegionOf(v.file, u.meta, d) == RegionOf(u.file, u.meta, d)
  }

  /** In every state of an upload, an undisturbed chunk request is acknowledged if and only if the chunk is sendable,
      and then the chunk holds its body and is finished. In particular a request that registered a chunk and died can
      be repeated. */
  lemma ChunkSucceedsIff(u: Upload, now: nat, ttl: Ttl, w: nat, c: nat, body: Bytes)
    requires Inv(u, now, ttl) && w !in u.writers
    ensures var v := Sent(u, now, ttl, w, c, body);
            && (Acked(v, w) <==> Sendable(u, c, body)) && SameOutside(u, v, w)
            && (Acked(v, w) ==> SentOk(u, v, c, body))
  {
    hide Next, Inv, Finishes, SameOutside, SentOk;
    assert WellFormed(u) by { InvWellFormed(u, now, ttl); }
    WriterLooksUp(u, now, ttl, w, c, body);
    if SessionIs(u, UPLOADING) && Fits(u, c, body) {
      SentOpen(u, now, ttl, w, c, body);
    } else {
      WriterRests(u, now, ttl, w, WriterBegin(w));
      RestsToTheEnd(u, now, ttl, w, |body|);
      SameAtOnce(u, u, w);
    }
  }

  /** The request has been looked up in an open session. */
  lemma SentOpen(u: Upload, now: nat, ttl: Ttl, w: nat, c: nat, body: Bytes)
    requires Inv(u, now, ttl) && w !in u.writers && WellFormed(u) && SessionIs(u, UPLOADING) && Fits(u, c, body)
    ensures var v := Sent(u, now, ttl, w, c, body);
            && (Acked(v, w) <==> Sendable(u, c, body)) && SameOutside(u, v, w)
            && (Acked(v, w) ==> SentOk(u, v, c, body))
  {
    hide Next, Inv, Finishes, SameOutside;
    WriterLooksUp(u, now, ttl, w, c, body);
    var looked := Then(u, now, ttl, WriterLookup(w, c, body));
    WriterBegins(looked, now, ttl, w, c, body);
    var begun := Then(looked, now, ttl, WriterBegin(w));
    if begun.writers[w].Granted? {
      SentGranted(u, begun, now, ttl, w, c, body);
      hide SentOk;
    } else {
      RestsToTheEnd(begun, now, ttl, w, |body|);
      SameAtOnce(u, begun, w);
      if begun.writers[w].Acknowledged? {
        FinishedRegion(u, now, ttl, c, body);
      }
    }
  }

  lemma SameAtOnce(u: Upload, v: Upload, w: nat)
    requires v == u.(writers := v.writers) && v.writers.Keys <= u.writers.Keys + {w}
    ensures SameOutside(u, v, w)
  {
  }

  lemma RestsToTheEnd(u: Upload, now: nat, ttl: Ttl, w: nat, size: nat)
    requires WellFormed(u) && (w in u.writers ==> u.writers[w].WriterGone? || u.writers[w].Acknowledged?)
    ensures Then(Then(Then(u, now, ttl, WriterOpen(w)), now, ttl, WriterPwrite(w, size)), now, ttl, WriterFinish(w))
         == u
  {
    hide Next;
    WriterRests(u, now, ttl, w, WriterOpen(w));
    WriterRests(u, now, ttl, w, WriterPwrite(w, size));
    WriterRests(u, now, ttl, w, WriterFinish(w));
  }

  /** A finished chunk with this digest holds this content. */
  lemma FinishedRegion(u: Upload, now: nat, ttl: Ttl, c: nat, body: Bytes)
    requires Inv(u, now, ttl) && u.keys.session.Present? && Holds(u, c, body)
    ensures c < Count(u.meta) && RegionOf(u.file, u.meta, c) == body
  {
    hide WriterInv, CompleterInv, RowsInv;
    assert Sha256(RegionOf(u.file, u.meta, c)) == Sha256(body);
  }

  lemma SentGranted(u: Upload, begun: Upload, now: nat, ttl: Ttl, w: nat, c: nat, body: Bytes)
    requires WellFormed(u) && SessionIs(u, UPLOADING) && Fits(u, c, body) && w !in u.writers
    requires begun == WithGrant(u, now + ttl.session, w, c, body)
    ensures var v := Then(Then(Then(begun, now, ttl, WriterOpen(w)), now, ttl, WriterPwrite(w, |body|)), now, ttl,
                          WriterFinish(w));
            && (Acked(v, w) <==> u.place == Temp) && SameOutside(u, v, w)
            && (Acked(v, w) ==> SentOk(u, v, c, body))
  {
    hide Next;
    WriterOpens(begun, now, ttl, w, c, body);
    var atFile := Then(begun, now, ttl, WriterOpen(w));
    if u.place == Temp {
      WriterWrites(atFile, now, ttl, w, c, body);
      var written := Then(atFile, now, ttl, WriterPwrite(w, |body|));
      WriterFinishes(written, now, ttl, w, c, body);
    } else {
      WriterRests(atFile, now, ttl, w, WriterPwrite(w, |body|));
      WriterRests(atFile, now, ttl, w, WriterFinish(w));
    }
  }

  // ---------------------------------------------------------------- the rest of an upload

  /** An open upload that can still become `content`: it has its temporary file, `content` is what was announced, and
      every registered chunk is a chunk of it. */
  ghost predicate CanBecome(u: Upload, content: Bytes)
    requires WellFormed(u)
  {
    && SessionIs(u, UPLOADING) && u.place == Temp && |content| == u.meta.fileSize && Sha256(content) == u.meta.sha
    && forall c: nat :: c < Count(u.meta) && c in DigestsOf(u.keys) ==>
         DigestsOf(u.keys)[c] == Sha256(RegionOf(content, u.meta, c))
  }

  /** The first chunks of `content` sent one after the other, each by a new request. */
  ghost function SentUpTo(u: Upload, now: nat, ttl: Ttl, w: nat, content: Bytes, n: nat): (v: Upload)
    requires WellFormed(u) && |content| == u.meta.fileSize && n <= Count(u.meta)
    ensures WellFormed(v) && v.meta == u.meta
  {
    if n == 0 then u else SentChunk(SentUpTo(u, now, ttl, w, content, n - 1), now, ttl, w + n - 1, content, n - 1)
  }

  ghost function SentChunk(u: Upload, now: nat, ttl: Ttl, w: nat, content: Bytes, c: nat): (v: Upload)
    requires WellFormed(u) && |content| == u.meta.fileSize && c < Count(u.meta)
    ensures WellFormed(v) && v.meta == u.meta
  {
    SentMeta(u, now, ttl, w, c, RegionOf(content, u.meta, c));
    Sent(u, now, ttl, w, c, RegionOf(content, u.meta, c))
  }

  lemma SentMeta(u: Upload, now: nat, ttl: Ttl, w: nat, c: nat, body: Bytes)
    requires WellFormed(u)
    ensures WellFormed(Sent(u, now, ttl, w, c, body)) && Sent(u, now, ttl, w, c, body).meta == u.meta
  {
    hide Next;
    var looked := Then(u, now, ttl, WriterLookup(w, c, body));
    MetaStays(u, now, ttl, WriterLookup(w, c, body));
    MetaStays(looked, now, ttl, WriterBegin(w));
    var begun := Then(looked, now, ttl, WriterBegin(w));
    MetaStays(begun, now, ttl, WriterOpen(w));
    var atFile := Then(begun, now, ttl, WriterOpen(w));
    MetaStays(atFile, now, ttl, WriterPwrite(w, |body|));
    MetaStays(Then(atFile, now, ttl, WriterPwrite(w, |body|)), now, ttl, WriterFinish(w));
  }

  lemma MetaStays(u: Upload, now: nat, ttl: Ttl, e: Event)
    requires WellFormed(u)
    ensures Next(u, now, ttl, e).meta == u.meta
  {
  }

  /** How far the upload is when the first chunks have been sent. */
  ghost predicate Resumed(u: Upload, v: Upload, w: nat, content: Bytes, n: nat) {
    && WellFormed(u) && WellFormed(v) && v.meta == u.meta && n <= Count(u.meta) && CanBecome(v, content)
    && v.rows == u.rows && v.completers == u.completers
    && (forall x <- v.writers :: x in u.writers || x < w + n)
    && (forall c: nat :: c < n ==> c in BitsOf(v.keys) && RegionOf(v.file, v.meta, c) == RegionOf(content, v.meta, c))
  }

  /** The next chunk can be sent, and is. */
  lemma ResumeOne(u: Upload, v: Upload, now: nat, ttl: Ttl, w: nat, content: Bytes, n: nat)
    requires Inv(v, now, ttl) && Resumed(u, v, w, content, n) && n < Count(u.meta)
    requires forall x <- u.writers :: x < w
    ensures var t := Sent(v, now, ttl, w + n, n, RegionOf(content, u.meta, n));
            Inv(t, now, ttl) && Resumed(u, t, w, content, n + 1)
  {
    hide Inv, Sent;
    var body := RegionOf(content, u.meta, n);
    SentInv(v, now, ttl, w + n, n, body);
    assert w + n !in v.writers;
    ChunkFits(v.meta, n);
    ChunkSucceedsIff(v, now, ttl, w + n, n, body);
    var t := Sent(v, now, ttl, w + n, n, body);
    assert Sendable(v, n, body);
  }

  lemma {:induction false} ResumeAll(u: Upload, now: nat, ttl: Ttl, w: nat, content: Bytes, n: nat)
    requires Inv(u, now, ttl) && WellFormed(u) && CanBecome(u, content) && n <= Count(u.meta)
    requires forall x <- u.writers :: x < w
    ensures var v := SentUpTo(u, now, ttl, w, content, n);
            Inv(v, now, ttl) && Resumed(u, v, w, content, n)
  {
    hide Inv, Sent, Resumed;
    if n == 0 {
      NothingResumed(u, w, content);
    } else {
      ResumeAll(u, now, ttl, w, content, n - 1);
      ResumeOne(u, SentUpTo(u, now, ttl, w, content, n - 1), now, ttl, w, content, n - 1);
    }
  }

  lemma NothingResumed(u: Upload, w: nat, content: Bytes)
    requires WellFormed(u) && CanBecome(u, content) && forall x <- u.writers :: x < w
    ensures Resumed(u, u, w, content, 0)
  {
  }

  /** A file is what its chunks are. */
  lemma {:induction false} EqualChunks(m: Meta, file: Bytes, content: Bytes, n: nat)
    requires ValidMeta(m) && |file| == |content| == m.fileSize && n <= Count(m)
    requires forall c: nat :: c < n ==> RegionOf(file, m, c) == RegionOf(content, m, c)
    ensures m.start[n] <= m.fileSize && file[..m.start[n]] == content[..m.start[n]]
  {
    assert n < Count(m) ==> m.start[n] < m.start[Count(m)];
    if n > 0 {
      EqualChunks(m, file, content, n - 1);
      var from, to := m.start[n - 1], m.start[n];
      assert RegionOf(file, m, n - 1) == RegionOf(content, m, n - 1);
      assert file[..to] == file[..from] + file[from..to];
      assert content[..to] == content[..from] + content[from..to];
    }
  }

  /** All chunks are there and no others. */
  lemma AllBits(bits: set<nat>, n: nat)
    requires forall c: nat :: c in bits <==> c < n
    ensures |bits| == n
    decreases n
  {
    if n == 0 {
      assert bits == {};
    } else {
      AllBits(bits - {n - 1}, n - 1);
    }
  }

  lemma RowPlace(v: Upload, r: Row)
    requires RowsInv(v) && r in v.rows
    ensures v.place == At(r.path)
  {
  }

  lemma TempHasNoRow(v: Upload, now: nat, ttl: Ttl)
    requires Inv(v, now, ttl) && v.place == Temp
    ensures v.rows == []
  {
    hide RowsInv, SessionInv, ChunksInv, WriterInv, CompleterInv;
    if v.rows != [] {
      RowPlace(v, v.rows[0]);
    }
  }

  lemma ResumedWhole(u: Upload, v: Upload, now: nat, ttl: Ttl, w: nat, content: Bytes, path: string)
    requires Inv(v, now, ttl) && WellFormed(u) && Resumed(u, v, w, content, Count(u.meta))
    ensures v.file == content && v.meta.sha == Sha256(content) && v.rows == [] && Completable(v, path)
  {
    hide WriterInv, CompleterInv;
    TempHasNoRow(v, now, ttl);
    EqualChunks(v.meta, v.file, content, Count(v.meta));
    assert v.file[..v.meta.fileSize] == v.file && content[..v.meta.fileSize] == content;
    AllBits(BitsOf(v.keys), Count(v.meta));
  }

  lemma ResumedNamed(u: Upload, v: Upload, w: nat, content: Bytes, n: nat, paths: set<string>)
    requires Named(u, paths) && Resumed(u, v, w, content, n)
    ensures Named(v, paths)
  {
    hide NamedCompleter;
  }

  /** Over every run: an open upload that can still become `content` does become it when all its chunks and then a
      complete request are sent, whatever has been sent before and wherever earlier requests have stopped. The answer
      is a success with the id of the only row, whose file is `content`. */
  lemma EveryUploadCanFinish(cfg: Config, evs: seq<ServerEvent>, id: nat, content: Bytes, w: nat, k: nat, path: string,
                             time: nat, row: nat)
    requires ValidConfig(cfg) && id in Run(cfg, evs).uploads
    requires WellFormed(Run(cfg, evs).uploads[id]) && CanBecome(Run(cfg, evs).uploads[id], content)
    requires forall x <- Run(cfg, evs).uploads[id].writers :: x < w
    requires k !in Run(cfg, evs).uploads[id].completers && path != "" && time != 0 && row > 0
    ensures var s := Run(cfg, evs);
            var u := s.uploads[id];
            var sent := SentUpTo(u, s.now, cfg.ttl, w, content, Count(u.meta));
            var v := Completed(sent, s.now, cfg.ttl, k, path, time, row);
            && k in v.completers && v.completers[k] == Replied(row)
            && |v.rows| == 1 && v.rows[0].archiveId == row
            && v.place == At(v.rows[0].path) && v.file == content
  {
    hide Run, Requested, Completed, Inv, SentUpTo, Named;
    var s := Run(cfg, evs);
    var u := s.uploads[id];
    UploadOf(cfg, evs, id);
    RunNamed(cfg, evs, id);
    ResumeAll(u, s.now, cfg.ttl, w, content, Count(u.meta));
    var sent := SentUpTo(u, s.now, cfg.ttl, w, content, Count(u.meta));
    ResumedNamed(u, sent, w, content, Count(u.meta), Requested(evs, id));
    ResumedWhole(u, sent, s.now, cfg.ttl, w, content, path);
    RetrySucceedsIff(sent, s.now, cfg.ttl, Requested(evs, id), k, path, time, row);
    CompletedInv(sent, s.now, cfg.ttl, k, path, time, row);
    RowIsContent(Completed(sent, s.now, cfg.ttl, k, path, time, row), s.now, cfg.ttl, content);
  }

  lemma RowIsContent(v: Upload, now: nat, ttl: Ttl, content: Bytes)
    requires Inv(v, now, ttl) && v.rows != [] && v.meta.sha == Sha256(content)
    ensures |v.rows| == 1 && v.place == At(v.rows[0].path) && v.file == content
  {
    hide ChunksInv, WriterInv, CompleterInv;
    assert v.rows[0] in v.rows;
    assert Sha256(v.file) == Sha256(content);
  }

  lemma CompletedInv(u: Upload, now: nat, ttl: Ttl, k: nat, path: string, time: nat, id: nat)
    requires Inv(u, now, ttl)
    ensures WellFormed(u)
    ensures var v := Completed(u, now, ttl, k, path, time, id); Inv(v, now, ttl) && v.meta == u.meta
  {
    hide Inv, Next;
    var looked := Follow(u, now, ttl, CompleterLookup(k, path, time));
    var begun := Follow(looked, now, ttl, CompleterBegin(k));
    var searched := Follow(begun, now, ttl, CompleterFind(k));
    var statted := Follow(searched, now, ttl, CompleterStat(k));
    var atFile := Follow(statted, now, ttl, CompleterOpen(k));
    var whole := Follow(atFile, now, ttl, CompleterRead(k, |u.file|));
    var judged := Follow(whole, now, ttl, CompleterVerdict(k));
    var stored := Follow(judged, now, ttl, CompleterRename(k));
    var inserted := Follow(stored, now, ttl, CompleterInsert(k, id));
    var marked := Follow(inserted, now, ttl, CompleterMarkArchived(k));
  }

  lemma Follow(u: Upload, now: nat, ttl: Ttl, e: Event) returns (v: Upload)
    requires Inv(u, now, ttl)
    ensures WellFormed(u) && v == Then(u, now, ttl, e) && Inv(v, now, ttl) && v.meta == u.meta
  {
    hide Inv, Next;
    ThenInv(u, now, ttl, e);
    MetaStays(u, now, ttl, e);
    v := Then(u, now, ttl, e);
  }
}
