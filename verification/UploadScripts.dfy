// The six Redis Lua scripts of the upload repository, each one atomic step.
// First as functions on the keys of one session and the three quota sets a script touches,
// then as a class whose methods run the script statements in their order.

module UploadScripts {
  import opened ChunkBitmap
  import opened Common

  datatype SessionState = UPLOADING | VERIFYING | ARCHIVED | FAILED

  /** The mutable fields of the session hash. */
  datatype Hash = Hash(
    state: SessionState,
    expiresAt: nat,
    archivedAt: nat,
    relativePath: string,
    archiveId: nat,
    failureCode: string)

  /** A Redis key: absent, or a value that dies at `expiry`. */
  datatype Key<+T> = Absent | Present(value: T, expiry: nat)

  /** The three keys of one upload session: hash, chunk bitmap, chunk digests. */
  datatype Keys = Keys(session: Key<Hash>, bits: Key<set<nat>>, digests: Key<map<nat, Digest>>)

  /** A quota member carries the file size after the upload id, as the script parses it back. */
  datatype Member = Member(uploadId: nat, size: nat)

  type ZSet = map<Member, nat>

  datatype Quota = Quota(global: ZSet, device: ZSet, collector: ZSet)

  datatype Limits = Limits(maxActive: nat, maxDevice: nat, maxCollector: nat, maxReserved: nat)

  datatype CreateStatus = Created | Exists | GlobalFull | DeviceFull | CollectorFull | BytesFull
  datatype BeginChunkStatus = Writable | AlreadyComplete | ContentConflict | StateConflict | ChunkNotFound
  datatype BeginCompleteStatus = Ready | Resumable | AlreadyArchived | HasFailed | ChunksIncomplete | NotFound

  // ---------------------------------------------------------------- time

  /** What is left of a key once the clock reads `now`. */
  function Purge<T>(k: Key<T>, now: nat): Key<T> {
    if k.Present? && k.expiry <= now then Absent else k
  }

  function PurgeKeys(k: Keys, now: nat): Keys {
    Keys(Purge(k.session, now), Purge(k.bits, now), Purge(k.digests, now))
  }

  /** EXPIRE: no effect on a missing key. */
  function Expire<T>(k: Key<T>, at: nat): Key<T> {
    if k.Present? then Present(k.value, at) else Absent
  }

  // ---------------------------------------------------------------- quota sets

  function Clean(z: ZSet, now: nat): ZSet {
    map m | m in z && z[m] > now :: z[m]
  }

  ghost function SumSizes(s: set<Member>): nat {
    if s == {} then 0 else var m :| m in s; m.size + SumSizes(s - {m})
  }

  lemma {:induction false} SumRemove(s: set<Member>, m: Member)
    requires m in s
    ensures SumSizes(s) == m.size + SumSizes(s - {m})
  {
    var p :| p in s && SumSizes(s) == p.size + SumSizes(s - {p});
    if p != m {
      SumRemove(s - {p}, m);
      SumRemove(s - {m}, p);
      assert s - {p} - {m} == s - {m} - {p};
    }
  }

  lemma {:induction false} SumMonotone(a: set<Member>, b: set<Member>)
    requires a <= b
    ensures SumSizes(a) <= SumSizes(b)
  {
    if a != {} {
      var m :| m in a;
      SumRemove(a, m);
      SumRemove(b, m);
      SumMonotone(a - {m}, b - {m});
    }
  }

  /** The quota decision of the create script, after the three sets were cleaned. */
  ghost function Admit(known: bool, q: Quota, size: nat, l: Limits): CreateStatus {
    if known then Exists
    else if |q.global| >= l.maxActive then GlobalFull
    else if |q.device| >= l.maxDevice then DeviceFull
    else if |q.collector| >= l.maxCollector then CollectorFull
    else if SumSizes(q.global.Keys) + size > l.maxReserved then BytesFull
    else Created
  }

  predicate Scores(z: ZSet, m: Member, at: nat) {
    m in z && z[m] == at
  }

  function CleanAll(q: Quota, now: nat): Quota {
    Quota(Clean(q.global, now), Clean(q.device, now), Clean(q.collector, now))
  }

  function Add(q: Quota, m: Member, score: nat): Quota {
    Quota(q.global[m := score], q.device[m := score], q.collector[m := score])
  }

  function Remove(q: Quota, m: Member): Quota {
    Quota(q.global - {m}, q.device - {m}, q.collector - {m})
  }

  // ---------------------------------------------------------------- session keys

  const EMPTY_KEYS := Keys(Absent, Absent, Absent)

  function Fresh(expiresAt: nat): Key<Hash> {
    Present(Hash(UPLOADING, expiresAt, 0, "", 0, ""), expiresAt)
  }

  function DigestsOf(k: Keys): map<nat, Digest> {
    if k.digests.Present? then k.digests.value else map[]
  }

  function BitsOf(k: Keys): set<nat> {
    if k.bits.Present? then k.bits.value else {}
  }

  function BeginChunkStatusOf(k: Keys, c: nat, d: Digest): BeginChunkStatus {
    if k.session.Absent? then ChunkNotFound
    else if k.session.value.state != UPLOADING then StateConflict
    else if c in DigestsOf(k) && DigestsOf(k)[c] != d then ContentConflict
    else if c in DigestsOf(k) && c in BitsOf(k) then AlreadyComplete
    else Writable
  }

  /** A chunk is granted in an open session exactly when nobody has registered it, or with this digest and without
      being finished; it conflicts exactly when another digest is registered. So the request that registered a chunk
      and died can be sent again. */
  lemma BeginChunkIff(k: Keys, c: nat, d: Digest)
    requires k.session.Present? && k.session.value.state == UPLOADING
    ensures var digests := if k.digests.Present? then k.digests.value else map[];
            var bits := if k.bits.Present? then k.bits.value else {};
            && (BeginChunkStatusOf(k, c, d) == Writable <==> (c in digests ==> digests[c] == d && c !in bits))
            && (BeginChunkStatusOf(k, c, d) == ContentConflict <==> c in digests && digests[c] != d)
            && (BeginChunkStatusOf(k, c, d) == AlreadyComplete <==> c in digests && digests[c] == d && c in bits)
  {
  }

  function BeginChunkKeys(k: Keys, c: nat, d: Digest, at: nat): Keys {
    if BeginChunkStatusOf(k, c, d) == Writable
    then k.(digests := Present(DigestsOf(k)[c := d], at))
    else k
  }

  predicate FinishChunkOk(k: Keys, c: nat, d: Digest) {
    k.session.Present? && k.session.value.state == UPLOADING && c in DigestsOf(k) && DigestsOf(k)[c] == d
  }

  function FinishChunkKeys(k: Keys, c: nat, d: Digest, at: nat): Keys {
    if FinishChunkOk(k, c, d)
    then Keys(Present(k.session.value.(expiresAt := at), at),
              Present(BitsOf(k) + {c}, at),
              Expire(k.digests, at))
    else k
  }

  function BeginCompleteStatusOf(k: Keys, count: nat): BeginCompleteStatus {
    if k.session.Absent? then NotFound
    else match k.session.value.state
      case ARCHIVED => AlreadyArchived
      case FAILED => HasFailed
      case VERIFYING => Resumable
      case UPLOADING => if |BitsOf(k)| != count then ChunksIncomplete else Ready
  }

  function BeginCompleteKeys(k: Keys, count: nat, archivedAt: nat, path: string): Keys {
    if BeginCompleteStatusOf(k, count) == Ready
    then k.(session := Present(
              k.session.value.(state := VERIFYING, archivedAt := archivedAt, relativePath := path),
              k.session.expiry))
    else k
  }

  function MarkFailedKeys(k: Keys, code: string, at: nat): Keys {
    if k.session.Absent? then k
    else Keys(Present(k.session.value.(state := FAILED, failureCode := code, expiresAt := at), at),
              Expire(k.bits, at), Expire(k.digests, at))
  }

  function MarkArchivedKeys(k: Keys, id: nat, archivedAt: nat, path: string, at: nat): Keys {
    if k.session.Absent? then k
    else Keys(Present(
                k.session.value.(state := ARCHIVED, archiveId := id, archivedAt := archivedAt,
                                 relativePath := path, failureCode := ""), at),
              Expire(k.bits, at), Expire(k.digests, at))
  }

  /** The loop of the create script over ZRANGE: each member's size, parsed from its tail, is added up. */
  method ReservedBytes(z: ZSet) returns (bytes: nat)
    ensures bytes == SumSizes(z.Keys)
  {
    bytes := 0;
    var members := z.Keys;
    while members != {}
      invariant members <= z.Keys
      invariant bytes + SumSizes(members) == SumSizes(z.Keys)
      decreases members
    {
      var m :| m in members;
      SumRemove(members, m);
      bytes := bytes + m.size;
      members := members - {m};
    }
  }

  // ---------------------------------------------------------------- the scripts, statement by statement

  /** The set of chunks behind the bitmap key. */
  ghost function BitsKey(bitmap: Key<seq<bv8>>): Key<set<nat>> {
    if bitmap.Absent? then Absent else Present(Bits(bitmap.value), bitmap.expiry)
  }

  /** GETBIT: 0 for a missing key. */
  predicate GetBit(bitmap: Key<seq<bv8>>, c: nat) {
    bitmap.Present? && Contains(bitmap.value, c)
  }

  /** The string value of the bitmap key, empty for a missing key. */
  function BitmapOf(bitmap: Key<seq<bv8>>): seq<bv8> {
    if bitmap.Present? then bitmap.value else []
  }

  /** The Redis keys one script invocation can touch. Methods follow the Lua text. */
  class RedisUploadStore {
    var session: Key<Hash>
    var bitmap: Key<seq<bv8>>
    var digests: Key<map<nat, Digest>>
    var global: ZSet
    var device: ZSet
    var collector: ZSet

    ghost function TheKeys(): Keys
      reads this
    {
      Keys(session, BitsKey(bitmap), digests)
    }

    ghost function TheQuota(): Quota
      reads this
    {
      Quota(global, device, collector)
    }

    constructor ()
      ensures TheKeys() == EMPTY_KEYS
      ensures TheQuota() == Quota(map[], map[], map[])
    {
      session, bitmap, digests := Absent, Absent, Absent;
      global, device, collector := map[], map[], map[];
    }

    /** kCreateSessionScript */
    method CreateSession(now: nat, uploadId: nat, size: nat, expiresAt: nat, l: Limits)
      returns (status: CreateStatus)
      modifies this
      ensures status == Admit(old(session).Present?, CleanAll(old(TheQuota()), now), size, l)
      ensures status != Created ==>
                TheKeys() == old(TheKeys()) && TheQuota() == CleanAll(old(TheQuota()), now)
      ensures status == Created ==>
                && TheKeys() == old(TheKeys()).(session := Fresh(expiresAt))
                && TheQuota() == Add(CleanAll(old(TheQuota()), now), Member(uploadId, size), expiresAt)
      ensures var free := old(session).Absent?;
              var room := |Clean(old(global), now)| < l.maxActive;
              var deviceRoom := |Clean(old(device), now)| < l.maxDevice;
              var collectorRoom := |Clean(old(collector), now)| < l.maxCollector;
              var fits := SumSizes(Clean(old(global), now).Keys) + size <= l.maxReserved;
              && (status == Exists <==> !free) && (status == GlobalFull <==> free && !room)
              && (status == DeviceFull <==> free && room && !deviceRoom)
              && (status == CollectorFull <==> free && room && deviceRoom && !collectorRoom)
              && (status == BytesFull <==> free && room && deviceRoom && collectorRoom && !fits)
              && (status == Created <==> free && room && deviceRoom && collectorRoom && fits)
      ensures bitmap == old(bitmap) && digests == old(digests)
      ensures status == Created ==>
                && old(session).Absent? && session == Present(Hash(UPLOADING, expiresAt, 0, "", 0, ""), expiresAt)
                && Scores(global, Member(uploadId, size), expiresAt)
                && Scores(device, Member(uploadId, size), expiresAt)
                && Scores(collector, Member(uploadId, size), expiresAt)
      ensures status != Created ==> session == old(session)
      ensures forall m: Member :: status != Created || m != Member(uploadId, size) ==>
                && (m in global <==> m in old(global) && old(global)[m] > now)
                && (m in device <==> m in old(device) && old(device)[m] > now)
                && (m in collector <==> m in old(collector) && old(collector)[m] > now)
    {
      global := Clean(global, now);
      device := Clean(device, now);
      collector := Clean(collector, now);
      if session.Present? {
        return Exists;
      }
      if |global| >= l.maxActive {
        return GlobalFull;
      }
      if |device| >= l.maxDevice {
        return DeviceFull;
      }
      if |collector| >= l.maxCollector {
        return CollectorFull;
      }
      var reserved := ReservedBytes(global);
      if reserved + size > l.maxReserved {
        return BytesFull;
      }
      session := Fresh(expiresAt);
      var m := Member(uploadId, size);
      global := global[m := expiresAt];
      device := device[m := expiresAt];
      collector := collector[m := expiresAt];
      return Created;
    }

    /** kBeginChunkScript */
    method BeginChunk(c: nat, d: Digest, at: nat) returns (status: BeginChunkStatus)
      modifies this`digests
      ensures status == BeginChunkStatusOf(old(TheKeys()), c, d)
      ensures TheKeys() == BeginChunkKeys(old(TheKeys()), c, d, at)
      ensures var open := session.Present? && session.value.state == UPLOADING;
              var known := old(digests).Present? && c in old(digests).value;
              && (status == ChunkNotFound <==> session.Absent?)
              && (status == StateConflict <==> session.Present? && !open)
              && (status == ContentConflict <==> open && known && old(digests).value[c] != d)
              && (status == AlreadyComplete <==> open && known && old(digests).value[c] == d && GetBit(bitmap, c))
              && (status == Writable <==> open && (known ==> old(digests).value[c] == d && !GetBit(bitmap, c)))
      ensures status != Writable ==> digests == old(digests)
      ensures status == Writable ==>
                digests == Present((if old(digests).Present? then old(digests).value else map[])[c := d], at)
    {
      if session.Absent? {
        return ChunkNotFound;
      }
      if session.value.state != UPLOADING {
        return StateConflict;
      }
      var known := digests.Present? && c in digests.value;
      if known && digests.value[c] != d {
        return ContentConflict;
      }
      ContainsIsMember(BitmapOf(bitmap), c);
      if known && GetBit(bitmap, c) {
        return AlreadyComplete;
      }
      if !known {
        digests := Present(if digests.Present? then digests.value[c := d] else map[c := d], at);
      }
      digests := Present(digests.value, at);
      assert digests.value == DigestsOf(old(TheKeys()))[c := d];
      return Writable;
    }

    /** kFinishChunkScript */
    method FinishChunk(c: nat, d: Digest, at: nat, m: Member) returns (ok: bool)
      modifies this
      ensures ok == FinishChunkOk(old(TheKeys()), c, d)
      ensures TheKeys() == FinishChunkKeys(old(TheKeys()), c, d, at)
      ensures TheQuota() == if ok then Add(old(TheQuota()), m, at) else old(TheQuota())
      ensures ok <==> && old(session).Present? && old(session).value.state == UPLOADING
                      && old(digests).Present? && c in old(digests).value && old(digests).value[c] == d
      ensures !ok ==> session == old(session) && bitmap == old(bitmap) && digests == old(digests)
      ensures ok ==> && session == Present(old(session).value.(expiresAt := at), at)
                     && digests == Present(old(digests).value, at)
                     && bitmap.Present? && bitmap.expiry == at
                     && (forall x: nat :: GetBit(bitmap, x) <==> GetBit(old(bitmap), x) || x == c)
                     && global == old(global)[m := at] && device == old(device)[m := at]
                     && collector == old(collector)[m := at]
    {
      if session.Absent? || session.value.state != UPLOADING
         || !(digests.Present? && c in digests.value && digests.value[c] == d)
      {
        return false;
      }
      assert BitsOf(TheKeys()) == Bits(BitmapOf(bitmap));
      SetBitAdds(BitmapOf(bitmap), c);
      bitmap := Present(SetBit(BitmapOf(bitmap), c), at);
      session := Present(session.value.(expiresAt := at), at);
      digests := Expire(digests, at);
      global := global[m := at];
      device := device[m := at];
      collector := collector[m := at];
      return true;
    }

    /** kBeginCompleteScript */
    method BeginComplete(count: nat, archivedAt: nat, path: string) returns (status: BeginCompleteStatus)
      modifies this`session
      ensures status == BeginCompleteStatusOf(old(TheKeys()), count)
      ensures TheKeys() == BeginCompleteKeys(old(TheKeys()), count, archivedAt, path)
      ensures var was := old(session);
              && (status == NotFound <==> was.Absent?)
              && (status == AlreadyArchived <==> was.Present? && was.value.state == ARCHIVED)
              && (status == HasFailed <==> was.Present? && was.value.state == FAILED)
              && (status == Resumable <==> was.Present? && was.value.state == VERIFYING)
              && (status == Ready <==>
                    was.Present? && was.value.state == UPLOADING && BitCount(BitmapOf(bitmap)) == count)
              && (status == Ready ==>
                    session == Present(was.value.(state := VERIFYING, archivedAt := archivedAt, relativePath := path),
                                       was.expiry))
              && (status != Ready ==> session == was)
    {
      if session.Absent? {
        return NotFound;
      }
      var s := session.value.state;
      if s == ARCHIVED {
        return AlreadyArchived;
      } else if s == FAILED {
        return HasFailed;
      } else if s == VERIFYING {
        return Resumable;
      }
      BitCountIsSize(BitmapOf(bitmap));
      if BitCount(BitmapOf(bitmap)) != count {
        return ChunksIncomplete;
      }
      session := Present(session.value.(state := VERIFYING, archivedAt := archivedAt, relativePath := path),
                         session.expiry);
      return Ready;
    }

    /** kMarkFailedScript */
    method MarkFailed(code: string, at: nat, m: Member) returns (ok: bool)
      modifies this
      ensures ok == old(session).Present?
      ensures TheKeys() == MarkFailedKeys(old(TheKeys()), code, at)
      ensures TheQuota() == if ok then Add(old(TheQuota()), m, at) else old(TheQuota())
      ensures !ok ==> session == old(session) && bitmap == old(bitmap) && digests == old(digests)
      ensures ok ==> && session == Present(old(session).value.(state := FAILED, failureCode := code,
                                             expiresAt := at), at)
                     && (if old(bitmap).Absent? then bitmap.Absent? else bitmap == Present(old(bitmap).value, at))
                     && (if old(digests).Absent? then digests.Absent? else digests == Present(old(digests).value, at))
                     && global == old(global)[m := at] && device == old(device)[m := at]
                     && collector == old(collector)[m := at]
    {
      if session.Absent? {
        return false;
      }
      session := Present(session.value.(state := FAILED, failureCode := code, expiresAt := at), at);
      bitmap := Expire(bitmap, at);
      digests := Expire(digests, at);
      global := global[m := at];
      device := device[m := at];
      collector := collector[m := at];
      return true;
    }

    /** kMarkArchivedScript */
    method MarkArchived(id: nat, archivedAt: nat, path: string, at: nat, m: Member) returns (ok: bool)
      modifies this
      ensures ok == old(session).Present?
      ensures TheKeys() == MarkArchivedKeys(old(TheKeys()), id, archivedAt, path, at)
      ensures TheQuota() == if ok then Remove(old(TheQuota()), m) else old(TheQuota())
      ensures !ok ==> session == old(session) && bitmap == old(bitmap) && digests == old(digests)
      ensures ok ==> && session == Present(old(session).value.(state := ARCHIVED, archiveId := id,
                                             archivedAt := archivedAt, relativePath := path, failureCode := ""), at)
                     && (if old(bitmap).Absent? then bitmap.Absent? else bitmap == Present(old(bitmap).value, at))
                     && (if old(digests).Absent? then digests.Absent? else digests == Present(old(digests).value, at))
                     && m !in global && m !in device && m !in collector
                     && global == old(global) - {m} && device == old(device) - {m} && collector == old(collector) - {m}
    {
      if session.Absent? {
        return false;
      }
      session := Present(
        session.value.(state := ARCHIVED, archiveId := id, archivedAt := archivedAt, relativePath := path,
                       failureCode := ""), at);
      bitmap := Expire(bitmap, at);
      digests := Expire(digests, at);
      global := global - {m};
      device := device - {m};
      collector := collector - {m};
      return true;
    }
  }
}
