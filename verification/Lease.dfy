/** Session leases: what an approval leaves behind so that the same client need not ask again. */
module Lease {
  import opened Prelude

  /** Who may reuse a lease: the six fields that identify a client session. */
  datatype LookupKey = LookupKey(clientCertFP: string, targetUser: string, targetIP: string, sourceIP: string,
                                 hostKeyFP: string, destinationFP: string)

  datatype FullKey = FullKey(lookup: LookupKey, approver: string)

  datatype ActiveLease = ActiveLease(approver: string, expiresAt: Time)

  type Leases = map<FullKey, ActiveLease>

  predicate Past(l: ActiveLease, now: Time) {
    now > l.expiresAt
  }

  /** time.Until, cut off at zero. */
  function Remaining(l: ActiveLease, now: Time): Time {
    if l.expiresAt - now < 0 then 0 else l.expiresAt - now
  }

  function PutLease(leases: Leases, key: FullKey, expiresAt: Time): Leases {
    leases[key := ActiveLease(key.approver, expiresAt)]
  }

  function Unexpired(leases: Leases, now: Time): Leases {
    map f | f in leases && !Past(leases[f], now) :: leases[f]
  }

  /** The full keys a lookup matches. */
  function Bucket(leases: Leases, lookup: LookupKey): set<FullKey> {
    set f | f in leases && f.lookup == lookup
  }

  /** The lookup index holds exactly the non-empty buckets, and leases name their approver. */
  predicate Indexed(leases: Leases, byLookup: map<LookupKey, set<FullKey>>) {
    && (forall k :: k in byLookup ==> byLookup[k] != {} && byLookup[k] == Bucket(leases, k))
    && (forall f :: f in leases ==> f.lookup in byLookup)
    && (forall f :: f in leases ==> leases[f].approver == f.approver)
  }

  /** A longest-lived matching lease that is not past, if there is one. */
  predicate IsBest(leases: Leases, lookup: LookupKey, now: Time, best: Option<ActiveLease>) {
    match best
    case None => forall f :: f in leases && f.lookup == lookup ==> Past(leases[f], now)
    case Some(l) =>
      && !Past(l, now)
      && (exists f :: f in leases && f.lookup == lookup && leases[f] == l)
      && (forall f :: f in leases && f.lookup == lookup ==> leases[f].expiresAt <= l.expiresAt)
  }

  // --- Index maintenance ---

  lemma PutIndexed(leases: Leases, byLookup: map<LookupKey, set<FullKey>>, key: FullKey, expiresAt: Time)
    requires Indexed(leases, byLookup)
    ensures var bucket := if key.lookup in byLookup then byLookup[key.lookup] else {};
            Indexed(PutLease(leases, key, expiresAt), byLookup[key.lookup := bucket + {key}])
  {
    var bucket := if key.lookup in byLookup then byLookup[key.lookup] else {};
    var after, index := PutLease(leases, key, expiresAt), byLookup[key.lookup := bucket + {key}];
    assert bucket == Bucket(leases, key.lookup);
    forall k | k in index ensures index[k] != {} && index[k] == Bucket(after, k) {
      if k == key.lookup {
        assert Bucket(after, k) == bucket + {key};
      } else {
        assert Bucket(after, k) == Bucket(leases, k);
      }
    }
  }

  function DropFromIndex(byLookup: map<LookupKey, set<FullKey>>, full: FullKey): map<LookupKey, set<FullKey>> {
    if full.lookup !in byLookup then byLookup
    else if byLookup[full.lookup] - {full} == {} then byLookup - {full.lookup}
    else byLookup[full.lookup := byLookup[full.lookup] - {full}]
  }

  lemma DropIndexed(leases: Leases, byLookup: map<LookupKey, set<FullKey>>, full: FullKey)
    requires Indexed(leases, byLookup)
    ensures Indexed(leases - {full}, DropFromIndex(byLookup, full))
  {
    var after, index := leases - {full}, DropFromIndex(byLookup, full);
    assert full.lookup in byLookup ==> Bucket(after, full.lookup) == byLookup[full.lookup] - {full};
    forall k | k in index ensures index[k] != {} && index[k] == Bucket(after, k) {
      if k != full.lookup {
        assert Bucket(after, k) == Bucket(leases, k);
      }
    }
    forall f | f in after ensures f.lookup in index {
      if f.lookup == full.lookup {
        assert f in byLookup[full.lookup] - {full};
      }
    }
  }

  // --- The store as it is built ---

  class Store {
    var leases: Leases
    var byLookup: map<LookupKey, set<FullKey>>

    ghost predicate Valid()
      reads this
    {
      Indexed(leases, byLookup)
    }

    constructor ()
      ensures Valid() && leases == map[]
    {
      leases, byLookup := map[], map[];
    }

    method Put(key: FullKey, expiresAt: Time)
      requires Valid()
      modifies this
      ensures Valid() && leases == PutLease(old(leases), key, expiresAt)
    {
      PutIndexed(leases, byLookup, key, expiresAt);
      leases := leases[key := ActiveLease(key.approver, expiresAt)];
      if key.lookup !in byLookup {
        byLookup := byLookup[key.lookup := {}];
      }
      byLookup := byLookup[key.lookup := byLookup[key.lookup] + {key}];
    }

    method DeleteLocked(full: FullKey)
      requires Valid()
      modifies this
      ensures Valid() && leases == old(leases) - {full}
    {
      DropIndexed(leases, byLookup, full);
      leases := leases - {full};
      if full.lookup in byLookup {
        var bucket := byLookup[full.lookup] - {full};
        byLookup := byLookup[full.lookup := bucket];
        if bucket == {} {
          byLookup := byLookup - {full.lookup};
        }
      }
    }

    method PurgeExpired(now: Time)
      requires Valid()
      modifies this
      ensures Valid() && leases == Unexpired(old(leases), now)
    {
      ghost var was := leases;
      var todo := leases.Keys;
      while todo != {}
        invariant Valid() && todo <= leases.Keys && Purging(was, leases, todo, now)
        decreases |todo|
      {
        var full :| full in todo;
        PurgingStep(was, leases, todo, full, now);
        if Past(leases[full], now) {
          DeleteLocked(full);
        }
        todo := todo - {full};
      }
      PurgingDone(was, leases, now);
    }

    /** FindActive: a running best over the lookup's bucket. */
    method FindActive(lookup: LookupKey, now: Time) returns (best: Option<ActiveLease>)
      requires Valid()
      ensures IsBest(leases, lookup, now, best)
    {
      best := None;
      var todo := if lookup in byLookup then byLookup[lookup] else {};
      assert todo == Bucket(leases, lookup);
      while todo != {}
        invariant todo <= Bucket(leases, lookup)
        invariant best.Some? ==>
                    && !Past(best.value, now)
                    && exists f :: f in leases && f.lookup == lookup && leases[f] == best.value
        invariant forall f :: f in Bucket(leases, lookup) - todo ==>
                    Past(leases[f], now) || (best.Some? && leases[f].expiresAt <= best.value.expiresAt)
        decreases |todo|
      {
        var full :| full in todo;
        todo := todo - {full};
        var l := leases[full];
        if !Past(l, now) && (best.None? || l.expiresAt > best.value.expiresAt) {
          best := Some(l);
        }
      }
      forall f | f in leases && f.lookup == lookup
        ensures Past(leases[f], now) || (best.Some? && leases[f].expiresAt <= best.value.expiresAt)
      {
        assert f in Bucket(leases, lookup) - todo;
      }
    }
  }

  /** Where a purge stands while todo is still to be looked at. */
  predicate Purging(was: Leases, leases: Leases, todo: set<FullKey>, now: Time) {
    && leases.Keys <= was.Keys
    && (forall f :: f in leases ==> leases[f] == was[f])
    && (forall f :: f in was && f !in todo ==> (f in leases <==> !Past(was[f], now)))
  }

  lemma PurgingStep(was: Leases, leases: Leases, todo: set<FullKey>, full: FullKey, now: Time)
    requires Purging(was, leases, todo, now) && full in todo && full in leases
    ensures Purging(was, if Past(leases[full], now) then leases - {full} else leases, todo - {full}, now)
  {
  }

  lemma PurgingDone(was: Leases, leases: Leases, now: Time)
    requires Purging(was, leases, {}, now)
    ensures leases == Unexpired(was, now)
  {
  }

  // --- Refinement of the history of puts ---

  datatype Op = Put(key: FullKey, expiresAt: Time) | Purge(now: Time)

  function Run(ops: seq<Op>): Leases {
    if ops == [] then map[]
    else
      var before := Run(ops[..|ops| - 1]);
      match ops[|ops| - 1]
      case Put(key, expiresAt) => PutLease(before, key, expiresAt)
      case Purge(now) => Unexpired(before, now)
  }

  /** The expiry of the last put of a key, however many purges came after it. */
  function LastPut(ops: seq<Op>, key: FullKey): Option<Time> {
    if ops == [] then None
    else if ops[|ops| - 1].Put? && ops[|ops| - 1].key == key then Some(ops[|ops| - 1].expiresAt)
    else LastPut(ops[..|ops| - 1], key)
  }

  predicate PurgedBy(ops: seq<Op>, now: Time) {
    forall i :: 0 <= i < |ops| && ops[i].Purge? ==> ops[i].now <= now
  }

  /** A lease that is not past is in the store exactly when its last put says so. */
  lemma {:induction false} LiveFromHistory(ops: seq<Op>, key: FullKey, now: Time, expiresAt: Time)
    requires PurgedBy(ops, now) && expiresAt >= now
    ensures key in Run(ops) && Run(ops)[key] == ActiveLease(key.approver, expiresAt) <==>
              LastPut(ops, key) == Some(expiresAt)
    ensures key in Run(ops) ==>
              LastPut(ops, key) == Some(Run(ops)[key].expiresAt) && Run(ops)[key].approver == key.approver
  {
    if ops != [] {
      LiveFromHistory(ops[..|ops| - 1], key, now, expiresAt);
    }
  }

  /** What FindActive must return, said of the puts alone. */
  ghost predicate IsBestPut(ops: seq<Op>, lookup: LookupKey, now: Time, best: Option<Time>) {
    match best
    case None => forall f: FullKey :: f.lookup == lookup && LastPut(ops, f).Some? ==> LastPut(ops, f).value < now
    case Some(t) =>
      && now <= t
      && (exists f: FullKey :: f.lookup == lookup && LastPut(ops, f) == Some(t))
      && (forall f: FullKey :: f.lookup == lookup && LastPut(ops, f).Some? ==> LastPut(ops, f).value <= t)
  }

  function ExpiryOf(best: Option<ActiveLease>): Option<Time> {
    match best
    case None => None
    case Some(l) => Some(l.expiresAt)
  }

  /** The store's answer is the naive scan over the last put of every matching key, so purges
      anywhere in the run change no later answer. */
  lemma BestFromHistory(ops: seq<Op>, lookup: LookupKey, now: Time, best: Option<ActiveLease>)
    requires PurgedBy(ops, now) && IsBest(Run(ops), lookup, now, best)
    ensures IsBestPut(ops, lookup, now, ExpiryOf(best))
  {
    forall f: FullKey | f.lookup == lookup && LastPut(ops, f).Some?
      ensures LastPut(ops, f).value < now || (best.Some? && LastPut(ops, f).value <= best.value.expiresAt)
    {
      if LastPut(ops, f).value >= now {
        LiveFromHistory(ops, f, now, LastPut(ops, f).value);
        assert f in Run(ops);
      }
    }
    if best.Some? {
      var f :| f in Run(ops) && f.lookup == lookup && Run(ops)[f] == best.value;
      LiveFromHistory(ops, f, now, best.value.expiresAt);
    }
  }

  /** The naive answer is unique. */
  lemma BestPutUnique(ops: seq<Op>, lookup: LookupKey, now: Time, a: Option<Time>, b: Option<Time>)
    requires IsBestPut(ops, lookup, now, a) && IsBestPut(ops, lookup, now, b)
    ensures a == b
  {
    if a.Some? {
      var f: FullKey :| f.lookup == lookup && LastPut(ops, f) == Some(a.value);
    }
    if b.Some? {
      var f: FullKey :| f.lookup == lookup && LastPut(ops, f) == Some(b.value);
    }
  }

  function WithoutPurges(ops: seq<Op>): seq<Op> {
    if ops == [] then []
    else
      var init := WithoutPurges(ops[..|ops| - 1]);
      if ops[|ops| - 1].Purge? then init else init + [ops[|ops| - 1]]
  }

  lemma {:induction false} PurgesKeepPuts(ops: seq<Op>, key: FullKey)
    ensures LastPut(WithoutPurges(ops), key) == LastPut(ops, key)
    ensures forall i :: 0 <= i < |WithoutPurges(ops)| ==> WithoutPurges(ops)[i].Put?
  {
    if ops != [] {
      var init := WithoutPurges(ops[..|ops| - 1]);
      PurgesKeepPuts(ops[..|ops| - 1], key);
      if ops[|ops| - 1].Put? {
        assert (init + [ops[|ops| - 1]])[..|init|] == init;
      }
    }
  }

  /** With and without its purges, a run ends in stores that answer alike. */
  lemma PurgesAreInvisible(ops: seq<Op>, lookup: LookupKey, now: Time, a: Option<ActiveLease>, b: Option<ActiveLease>)
    requires PurgedBy(ops, now)
    requires IsBest(Run(ops), lookup, now, a) && IsBest(Run(WithoutPurges(ops)), lookup, now, b)
    ensures ExpiryOf(a) == ExpiryOf(b)
  {
    var puts := WithoutPurges(ops);
    PurgesKeepPuts(ops, FullKey(lookup, ""));
    BestFromHistory(ops, lookup, now, a);
    BestFromHistory(puts, lookup, now, b);
    forall f: FullKey ensures LastPut(puts, f) == LastPut(ops, f) {
      PurgesKeepPuts(ops, f);
    }
    assert IsBestPut(ops, lookup, now, ExpiryOf(b));
    BestPutUnique(ops, lookup, now, ExpiryOf(a), ExpiryOf(b));
  }
}
