// File loops of the server: writing a chunk piece by piece, hashing a file window by window, and
// the verify-and-rename of one undisturbed complete request.

module ArchiveStorage {
  import opened Common
  import opened UploadProtocol

  // ---------------------------------------------------------------- pwrite loop

  /** What one pwrite call returns: some bytes written, an interruption, or an error. */
  datatype WriteResult = Wrote(count: nat) | Interrupted | WriteError

  /** How many bytes the calls offer to write when none of them fails. */
  function Offered(results: seq<WriteResult>): nat {
    if results == [] then 0
    else
      var last := results[|results| - 1];
      Offered(results[..|results| - 1]) + if last.Wrote? then last.count else 0
  }

  predicate NoneFails(results: seq<WriteResult>) {
    forall i :: 0 <= i < |results| ==> !results[i].WriteError? && results[i] != Wrote(0)
  }

  /** writeChunk on the bytes of the temporary file. The results of the calls come from outside; when
      they run out the process has died. Whatever happens, a prefix of the body was written and
      nothing else changed; success means all of it, and comes when no call fails and the calls offer enough. */
  method WriteChunk(file: array<Byte>, base: nat, body: Bytes, results: seq<WriteResult>)
    returns (ok: bool, ghost written: nat)
    requires base + |body| <= file.Length
    modifies file
    ensures written <= |body| && file[..] == Overwrite(old(file[..]), base, body[..written])
    ensures ok ==> written == |body|
    ensures NoneFails(results) && Offered(results) >= |body| ==> ok
  {
    written := 0;
    var done := 0;
    var call := 0;
    while done < |body|
      invariant done == written <= |body| && call <= |results|
      invariant file[..] == Overwrite(old(file[..]), base, body[..done])
      invariant done == Min(Offered(results[..call]), |body|)
      decreases |results| - call
    {
      assert call < |results| ==> results[..call + 1][..call] == results[..call];
      assert results[..|results|] == results;
      if call == |results| {
        return false, written;
      }
      var result := results[call];
      call := call + 1;
      if result == Interrupted {
        continue;
      }
      if result.WriteError? || result == Wrote(0) {
        return false, written;
      }
      var n := Min(result.count, |body| - done);
      var i := 0;
      ghost var before := file[..];
      while i < n
        invariant 0 <= i <= n
        invariant file[..] == Overwrite(before, base + done, body[done..done + i])
      {
        file[base + done + i] := body[done + i];
        i := i + 1;
      }
      OverwriteAppend(old(file[..]), base, body, done, n);
      done := done + n;
      written := done;
    }
    return true, written;
  }

  lemma OverwriteAppend(file: Bytes, base: nat, body: Bytes, done: nat, n: nat)
    requires base + |body| <= |file| && done + n <= |body|
    ensures Overwrite(Overwrite(file, base, body[..done]), base + done, body[done..done + n])
            == Overwrite(file, base, body[..done + n])
  {
  }

  // ---------------------------------------------------------------- windowed digest

  datatype DigestResult = DigestIoError | SizeDiffers | Digested(digest: Digest)

  /** Which of the system calls on the file succeed; `mapped` says it of each mapping in turn. */
  datatype FileCalls = FileCalls(opens: bool, mapped: seq<bool>, closes: bool, makesDirectories: bool, renames: bool)

  /** Every call that reading a file of this size can make succeeds. */
  predicate CallsSucceed(calls: FileCalls, size: nat) {
    calls.opens && calls.closes && |calls.mapped| >= size && forall i :: 0 <= i < |calls.mapped| ==> calls.mapped[i]
  }

  /** digestFile: maps page-aligned windows and hashes the part behind the alignment prefix. For every
      window and page size the digest is that of the whole content. */
  method DigestFile(content: Bytes, expectedSize: nat, window: nat, page: nat, calls: FileCalls)
    returns (result: DigestResult)
    requires window > 0 && page > 0
    ensures result == SizeDiffers <==> calls.opens && |content| != expectedSize
    ensures result.Digested? ==> |content| == expectedSize && result.digest == Sha256(content)
    ensures CallsSucceed(calls, expectedSize) ==> result != DigestIoError
  {
    if !calls.opens {
      return DigestIoError;
    }
    if |content| != expectedSize {
      return SizeDiffers;
    }
    var hashed: Bytes := [];
    var offset := 0;
    var windows := 0;
    while offset < expectedSize
      invariant offset <= expectedSize && hashed == content[..offset] && windows <= offset
    {
      var length := Min(window, expectedSize - offset);
      var mapOffset := offset - offset % page;
      var prefix := offset - mapOffset;
      if windows >= |calls.mapped| || !calls.mapped[windows] {
        return DigestIoError;
      }
      var mapping := content[mapOffset..mapOffset + prefix + length];
      var data := mapping[prefix..];
      assert data == content[offset..offset + length];
      hashed := hashed + data;
      offset := offset + length;
      windows := windows + 1;
    }
    assert content[..offset] == content;
    return if calls.closes then Digested(Sha256(hashed)) else DigestIoError;
  }

  // ---------------------------------------------------------------- verify and archive

  datatype ArchiveStatus = Archived | IntegrityMismatch | IoError

  /** The file of one upload on disk. */
  class StoredFile {
    var content: Bytes
    var place: Place

    constructor (content: Bytes)
      ensures this.content == content && place == Temp
    {
      this.content := content;
      place := Temp;
    }

    /** verifyAndArchiveFile without interference: whatever calls fail, a file is archived only if it lies in
        the temporary directory or at the final path and has the announced size and digest, rejected only if
        it lies there and has not, and moved only when it is archived. An I/O error has a cause. */
    method VerifyAndArchive(path: string, size: nat, sha: Digest, window: nat, page: nat, calls: FileCalls)
      returns (status: ArchiveStatus)
      requires window > 0 && page > 0
      modifies this`place
      ensures status == Archived ==>
                (old(place) == Temp || old(place) == At(path)) && |content| == size && Sha256(content) == sha
      ensures status == IntegrityMismatch ==>
                (old(place) == Temp || old(place) == At(path)) && !(|content| == size && Sha256(content) == sha)
      ensures status == IoError ==>
                || (old(place) != Temp && old(place) != At(path)) || !CallsSucceed(calls, size)
                || (old(place) == Temp && !(calls.makesDirectories && calls.renames))
      ensures place == if status == Archived then At(path) else old(place)
    {
      var finalExists := place == At(path);
      if !finalExists && place != Temp {
        return IoError;
      }
      var result := DigestFile(content, size, window, page, calls);
      if result == DigestIoError {
        return IoError;
      }
      if result == SizeDiffers || result.digest != sha {
        return IntegrityMismatch;
      }
      if !finalExists {
        if !calls.makesDirectories || !calls.renames {
          return IoError;
        }
        place := At(path);
      }
      return Archived;
    }
  }
}
