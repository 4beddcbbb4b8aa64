/** Key blobs uploaded from enrolled devices, held until an operator confirms or rejects them. */
module Pending {
  import opened Prelude
  import Keystore

  const PENDING_TTL: Time := 15 * MINUTE
  const MAX_GLOBAL := 32
  const MAX_PER_DEVICE := 4

  datatype PendingKey = PendingKey(id: string, deviceID: string, tag: string, comment: string, blob: array<Byte>,
                                   expiresAt: Time)

  type Entries = map<string, PendingKey>

  datatype PendingError = PendingNotFound | PendingFull

  /** A map of counters that reads as zero where it has no entry. */
  function Counter(byDev: map<string, int>, device: string): int {
    if device in byDev then byDev[device] else 0
  }

  function OfDevice(entries: Entries, device: string): set<string> {
    set id | id in entries && entries[id].deviceID == device
  }

  /** Every device counter is the number of queued entries of that device. */
  ghost predicate Counted(entries: Entries, byDev: map<string, int>) {
    forall d :: Counter(byDev, d) == |OfDevice(entries, d)|
  }

  ghost predicate WithinLimits(entries: Entries) {
    |entries| <= MAX_GLOBAL && forall d :: |OfDevice(entries, d)| <= MAX_PER_DEVICE
  }

  /** Entries sit under their own ids and no two share a blob. */
  ghost predicate Separate(entries: Entries) {
    && (forall id :: id in entries ==> entries[id].id == id)
    && (forall i, j :: i in entries && j in entries && i != j ==> entries[i].blob != entries[j].blob)
  }

  predicate Expired(p: PendingKey, now: Time) {
    now > p.expiresAt
  }

  function Live(entries: Entries, now: Time): Entries {
    map id | id in entries && !Expired(entries[id], now) :: entries[id]
  }

  /** Where a purge stands while todo is still to be looked at. */
  ghost predicate Purging(was: Entries, entries: Entries, todo: set<string>, now: Time) {
    && entries.Keys <= was.Keys
    && (forall id :: id in entries ==> entries[id] == was[id])
    && (forall id :: id in was && id !in todo ==> (id in entries <==> !Expired(was[id], now)))
  }

  lemma PurgingStep(was: Entries, entries: Entries, todo: set<string>, id: string, now: Time)
    requires Purging(was, entries, todo, now) && id in todo && id in entries
    ensures Purging(was, if Expired(entries[id], now) then entries - {id} else entries, todo - {id}, now)
  {
  }

  lemma PurgingDone(was: Entries, entries: Entries, now: Time)
    requires Purging(was, entries, {}, now)
    ensures entries == Live(was, now)
  {
  }

  // --- Adding and dropping one entry ---

  lemma AddToDevice(entries: Entries, id: string, p: PendingKey, d: string)
    requires id !in entries
    ensures |OfDevice(entries[id := p], d)| == |OfDevice(entries, d)| + if d == p.deviceID then 1 else 0
  {
    var after := entries[id := p];
    if d == p.deviceID {
      assert OfDevice(after, d) == OfDevice(entries, d) + {id};
    } else {
      assert OfDevice(after, d) == OfDevice(entries, d);
    }
  }

  lemma AddCounts(entries: Entries, byDev: map<string, int>, id: string, p: PendingKey)
    requires Counted(entries, byDev) && id !in entries
    ensures Counted(entries[id := p], byDev[p.deviceID := Counter(byDev, p.deviceID) + 1])
    ensures |entries[id := p]| == |entries| + 1
  {
    var after, byDev' := entries[id := p], byDev[p.deviceID := Counter(byDev, p.deviceID) + 1];
    forall d ensures Counter(byDev', d) == |OfDevice(after, d)| {
      assert Counter(byDev, d) == |OfDevice(entries, d)|;
      AddToDevice(entries, id, p, d);
    }
  }

  /** The guard in front of every decrement holds whenever the entry is there, so it never skips one. */
  lemma GuardHolds(entries: Entries, byDev: map<string, int>, id: string)
    requires Counted(entries, byDev) && id in entries
    ensures Counter(byDev, entries[id].deviceID) > 0
  {
    var d := entries[id].deviceID;
    assert id in OfDevice(entries, d);
    assert Counter(byDev, d) == |OfDevice(entries, d)|;
  }

  lemma DropCounts(entries: Entries, byDev: map<string, int>, id: string)
    requires Counted(entries, byDev) && id in entries
    ensures var d := entries[id].deviceID;
            Counted(entries - {id}, byDev[d := Counter(byDev, d) - 1])
    ensures |entries - {id}| == |entries| - 1
  {
    var e := entries[id].deviceID;
    var after, byDev' := entries - {id}, byDev[e := Counter(byDev, e) - 1];
    forall d ensures Counter(byDev', d) == |OfDevice(after, d)| {
      assert Counter(byDev, d) == |OfDevice(entries, d)|;
      if d == e {
        assert OfDevice(after, d) == OfDevice(entries, d) - {id};
      } else {
        assert OfDevice(after, d) == OfDevice(entries, d);
      }
    }
    assert after.Keys == entries.Keys - {id};
    assert |after.Keys| == |entries.Keys| - 1;
  }

  lemma SubsetCount(a: set<string>, b: set<string>)
    requires a <= b
    ensures |a| <= |b|
  {
    assert |b| == |a| + |b - a| by { assert b == a + (b - a); }
  }

  lemma FewerWithinLimits(entries: Entries, fewer: Entries)
    requires WithinLimits(entries) && fewer.Keys <= entries.Keys
    requires forall id :: id in fewer ==> fewer[id] == entries[id]
    ensures WithinLimits(fewer)
  {
    SubsetCount(fewer.Keys, entries.Keys);
    assert |fewer| == |fewer.Keys| && |entries| == |entries.Keys|;
    forall d ensures |OfDevice(fewer, d)| <= MAX_PER_DEVICE {
      SubsetCount(OfDevice(fewer, d), OfDevice(entries, d));
    }
  }

  lemma OneMoreWithinLimits(entries: Entries, byDev: map<string, int>, id: string, p: PendingKey)
    requires WithinLimits(entries) && Counted(entries, byDev) && id !in entries
    requires |entries| < MAX_GLOBAL && Counter(byDev, p.deviceID) < MAX_PER_DEVICE
    ensures WithinLimits(entries[id := p])
  {
    AddCounts(entries, byDev, id, p);
    var after := entries[id := p];
    forall d ensures |OfDevice(after, d)| <= MAX_PER_DEVICE {
      assert Counter(byDev, p.deviceID) == |OfDevice(entries, p.deviceID)|;
      if d == p.deviceID {
        assert OfDevice(after, d) == OfDevice(entries, d) + {id};
      } else {
        assert OfDevice(after, d) == OfDevice(entries, d);
      }
    }
  }

  // --- The queue as it is built ---

  class Store {
    var entries: Entries
    var byDev: map<string, int>

    /** Totals over the life of the queue. */
    ghost var added: nat
    ghost var deleted: nat
    ghost var purged: nat

    /** Counters agree with the entries, limits hold, nothing is lost, and no two entries share a
        blob. */
    ghost predicate Valid()
      reads this
    {
      && Counted(entries, byDev)
      && WithinLimits(entries)
      && added == |entries| + deleted + purged
      && Separate(entries)
    }

    constructor ()
      ensures Valid() && entries == map[] && added == deleted == purged == 0
    {
      entries, byDev := map[], map[];
      added, deleted, purged := 0, 0, 0;
    }

    /** Add under a fresh id; the queue keeps its own copy of the blob. Expired entries still count
        against the limits here. */
    method Add(id: string, deviceID: string, tag: string, comment: string, blob: array<Byte>, now: Time)
      returns (r: Outcome<string, PendingError>)
      requires Valid() && id !in entries
      modifies this
      ensures Valid() && deleted == old(deleted) && purged == old(purged)
      ensures r.Ok? <==> |old(entries)| < 32 && |OfDevice(old(entries), deviceID)| < 4
      ensures r.Err? ==> entries == old(entries) && added == old(added) && r.error == PendingFull
      ensures r.Ok? ==> r.value == id && added == old(added) + 1 && id in entries && fresh(entries[id].blob)
      ensures r.Ok? ==> entries[id].blob[..] == blob[..]
      ensures r.Ok? ==> entries == old(entries)[id := PendingKey(id, deviceID, tag, comment, entries[id].blob,
                now + 15 * MINUTE)]
    {
      assert Counter(byDev, deviceID) == |OfDevice(entries, deviceID)|;
      if |entries| >= MAX_GLOBAL {
        return Err(PendingFull);
      }
      if Counter(byDev, deviceID) >= MAX_PER_DEVICE {
        return Err(PendingFull);
      }
      var copy := Copy(blob);
      Enqueue(id, PendingKey(id, deviceID, tag, comment, copy, now + PENDING_TTL));
      return Ok(id);
    }

    method Enqueue(id: string, p: PendingKey)
      requires Valid() && id !in entries && p.id == id && |entries| < MAX_GLOBAL
                && Counter(byDev, p.deviceID) < MAX_PER_DEVICE
      requires forall i :: i in entries ==> entries[i].blob != p.blob
      modifies this
      ensures Valid() && entries == old(entries)[id := p]
      ensures added == old(added) + 1 && deleted == old(deleted) && purged == old(purged)
    {
      OneMoreWithinLimits(entries, byDev, id, p);
      AddCounts(entries, byDev, id, p);
      entries := entries[id := p];
      byDev := byDev[p.deviceID := Counter(byDev, p.deviceID) + 1];
      added := added + 1;
    }

    /** Remove an entry that is there and count its device down. */
    method Drop(id: string)
      requires Valid() && id in entries
      modifies this`entries, this`byDev
      ensures entries == old(entries) - {id} && |entries| == |old(entries)| - 1
      ensures Counted(entries, byDev) && WithinLimits(entries)
    {
      var p := entries[id];
      GuardHolds(entries, byDev, id);
      DropCounts(entries, byDev, id);
      FewerWithinLimits(entries, entries - {id});
      entries := entries - {id};
      if Counter(byDev, p.deviceID) > 0 {
        byDev := byDev[p.deviceID := Counter(byDev, p.deviceID) - 1];
      }
    }

    method PurgeOne(id: string)
      requires Valid() && id in entries
      modifies this
      ensures Valid() && entries == old(entries) - {id} && |entries| == |old(entries)| - 1
      ensures added == old(added) && deleted == old(deleted) && purged == old(purged) + 1
    {
      Drop(id);
      purged := purged + 1;
    }

    method PurgeExpired(now: Time)
      requires Valid()
      modifies this
      ensures Valid() && entries == Live(old(entries), now)
      ensures forall id :: id in entries <==> id in old(entries) && now <= old(entries)[id].expiresAt
      ensures added == old(added) && deleted == old(deleted)
    {
      ghost var was := entries;
      var todo := entries.Keys;
      while todo != {}
        invariant Valid() && todo <= entries.Keys && Purging(was, entries, todo, now)
        invariant added == old(added) && deleted == old(deleted)
        decreases |todo|
      {
        var id :| id in todo;
        PurgingStep(was, entries, todo, id, now);
        if Expired(entries[id], now) {
          PurgeOne(id);
        }
        todo := todo - {id};
      }
      PurgingDone(was, entries, now);
    }

    method Get(id: string, now: Time) returns (r: Outcome<PendingKey, PendingError>)
      requires Valid()
      modifies this
      ensures Valid() && entries == Live(old(entries), now) && added == old(added) && deleted == old(deleted)
      ensures r == if id in old(entries) && now <= old(entries)[id].expiresAt then Ok(old(entries)[id])
                   else Err(PendingNotFound)
    {
      PurgeExpired(now);
      if id !in entries {
        return Err(PendingNotFound);
      }
      return Ok(entries[id]);
    }

    method Delete(id: string) returns (ok: bool)
      requires Valid()
      modifies this
      ensures Valid() && ok == (id in old(entries)) && entries == old(entries) - {id}
      ensures added == old(added) && purged == old(purged) && deleted == old(deleted) + if ok then 1 else 0
    {
      if id !in entries {
        return false;
      }
      Drop(id);
      deleted := deleted + 1;
      return true;
    }

    /** List: every live entry once. */
    method List(now: Time) returns (out: seq<PendingKey>)
      requires Valid()
      modifies this
      ensures Valid() && entries == Live(old(entries), now)
      ensures |out| == |entries| && (forall p :: p in out <==> p.id in entries && entries[p.id] == p)
      ensures forall id :: id in entries <==> id in old(entries) && now <= old(entries)[id].expiresAt
    {
      PurgeExpired(now);
      out := [];
      var todo := entries.Keys;
      while todo != {}
        invariant Valid() && entries == Live(old(entries), now) && todo <= entries.Keys
        invariant |out| + |todo| == |entries.Keys|
        invariant forall p :: p in out <==> p.id in entries && p.id !in todo && entries[p.id] == p
        decreases |todo|
      {
        var id :| id in todo;
        todo := todo - {id};
        out := out + [entries[id]];
      }
    }
  }

  method Copy(b: array<Byte>) returns (c: array<Byte>)
    ensures fresh(c) && c[..] == b[..]
  {
    c := new Byte[b.Length];
    forall i | 0 <= i < b.Length {
      c[i] := b[i];
    }
  }

  // --- Confirmation ---

  datatype ConfirmResult = Confirmed(fingerprint: string) | WrongMode | NotFound | LockedOut | Refused

  /** What the control API makes of a load. */
  function Answered(load: (Keystore.Vault, Keystore.LoadResult)): (Keystore.Vault, ConfirmResult) {
    (load.0, match load.1
             case UnsealLocked => LockedOut
             case LoadedAs(fp) => Confirmed(fp)
             case _ => Refused)
  }

  /** A confirmation succeeds exactly when the keystore is open and the blob decrypts, and a wrong
      passphrase never looks like a lock. */
  lemma AnsweredExact(v: Keystore.Vault, a: Keystore.Attempt)
    ensures var (v', r) := Answered(Keystore.Load(v, a));
            var shut := v.lockedUntil.Some? && a.checkedAt < v.lockedUntil.value;
            && v' == Keystore.Load(v, a).0
            && (r.LockedOut? <==> shut)
            && (r.Refused? <==> !shut && !(a.mlocked && a.decrypted.Some?))
            && (!shut && a.mlocked && a.decrypted.Some? ==> r == Confirmed(a.decrypted.value.fingerprint))
  {
  }

  /** handleKeyConfirm hands the queued entry's own blob to the keystore, which wipes it. A refused
      confirmation therefore leaves the entry queued with nothing but zeros in it; only a locked
      keystore leaves it usable. */
  method KeyConfirm(queue: Store, ks: Keystore.Store, id: string, pass: string,
                    decrypt: (Bytes, string) -> Option<Keystore.Signer>, mlocked: bool,
                    now: Time, checkedAt: Time, recordedAt: Time)
    returns (r: ConfirmResult)
    requires queue.Valid()
    modifies queue, ks, set i | i in queue.entries :: queue.entries[i].blob
    ensures queue.Valid()
    ensures r.WrongMode? <==> ks.mode.LocalCA?
    ensures r.WrongMode? ==> queue.entries == old(queue.entries) && ks.Contents() == old(ks.Contents())
    ensures r.NotFound? <==>
              ks.mode.LocalKey? && !(id in old(queue.entries) && now <= old(queue.entries)[id].expiresAt)
    ensures r.NotFound? ==> ks.Contents() == old(ks.Contents())
    ensures !r.NotFound? && !r.WrongMode? ==>
              (ks.Contents(), r) == Answered(Keystore.Load(old(ks.Contents()),
                Keystore.Attempt(checkedAt, recordedAt, mlocked, old(decrypt(queue.entries[id].blob[..], pass)),
                    old(queue.entries[id].tag))))
    ensures r.Confirmed? ==> queue.entries == Live(old(queue.entries), now) - {id}
    ensures !r.Confirmed? ==> ks.pool == old(ks.pool) && ks.caSigner == old(ks.caSigner)
    ensures !r.Confirmed? && !r.WrongMode? ==> queue.entries == Live(old(queue.entries), now)
    ensures r.LockedOut? ==> queue.entries[id].blob[..] == old(queue.entries[id].blob[..])
    ensures r.Refused? ==> forall i :: 0 <= i < queue.entries[id].blob.Length ==> queue.entries[id].blob[i] == 0
    ensures forall i :: i in queue.entries && i != id ==> queue.entries[i].blob[..] == old(queue.entries[i].blob[..])
  {
    if ks.mode.LocalCA? {
      return WrongMode;
    }
    var got := queue.Get(id, now);
    if got.Err? {
      return NotFound;
    }
    r := Confirm(queue, ks, id, pass, decrypt, mlocked, checkedAt, recordedAt);
  }

  /** The load of an entry that is there, and its deletion when it succeeds. */
  method Confirm(queue: Store, ks: Keystore.Store, id: string, pass: string,
                 decrypt: (Bytes, string) -> Option<Keystore.Signer>, mlocked: bool, checkedAt: Time, recordedAt: Time)
    returns (r: ConfirmResult)
    requires queue.Valid() && id in queue.entries
    modifies queue, ks, queue.entries[id].blob
    ensures queue.Valid() && !r.NotFound? && !r.WrongMode?
    ensures (ks.Contents(), r) == Answered(Keystore.Load(old(ks.Contents()),
              Keystore.Attempt(checkedAt, recordedAt, mlocked, old(decrypt(queue.entries[id].blob[..], pass)),
                               old(queue.entries[id].tag))))
    ensures queue.entries == if r.Confirmed? then old(queue.entries) - {id} else old(queue.entries)
    ensures !r.Confirmed? ==> ks.pool == old(ks.pool) && ks.caSigner == old(ks.caSigner)
    ensures r.LockedOut? ==> queue.entries[id].blob[..] == old(queue.entries[id].blob[..])
    ensures r.Refused? ==> forall i :: 0 <= i < queue.entries[id].blob.Length ==> queue.entries[id].blob[i] == 0
  {
    var p := queue.entries[id];
    r := LoadBlob(ks, p.blob, pass, p.tag, decrypt, mlocked, checkedAt, recordedAt);
    if r.Confirmed? {
      var gone := queue.Delete(id);
    }
  }

  method LoadBlob(ks: Keystore.Store, blob: array<Byte>, pass: string, tag: string,
                  decrypt: (Bytes, string) -> Option<Keystore.Signer>, mlocked: bool, checkedAt: Time, recordedAt: Time)
    returns (r: ConfirmResult)
    modifies ks, blob
    ensures (ks.Contents(), r) == Answered(Keystore.Load(old(ks.Contents()),
              Keystore.Attempt(checkedAt, recordedAt, mlocked, old(decrypt(blob[..], pass)), tag)))
    ensures !r.NotFound? && !r.WrongMode?
    ensures !r.Confirmed? ==> ks.pool == old(ks.pool) && ks.caSigner == old(ks.caSigner)
    ensures r.LockedOut? <==> Keystore.Locked(old(ks.Contents()), checkedAt)
    ensures r.LockedOut? ==> blob[..] == old(blob[..])
    ensures !r.LockedOut? ==> forall i :: 0 <= i < blob.Length ==> blob[i] == 0
  {
    var loaded := ks.LoadPEMBytes(blob, pass, tag, decrypt, mlocked, checkedAt, recordedAt);
    match loaded {
      case UnsealLocked => r := LockedOut;
      case MlockFailed => r := Refused;
      case DecryptFailed => r := Refused;
      case LoadedAs(fp) => r := Confirmed(fp);
    }
  }
}
