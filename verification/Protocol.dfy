/** The approval protocol as a whole: approvers, waiters, timers and lease holders share the
    transaction table and the lease store, one critical section at a time, in any order. */
module Protocol {
  import opened Prelude
  import opened Approval
  import Lease

  // --- Threads ---

  /** One call of Approve that claimed its transaction: thread number, transaction, who and for how long. */
  datatype Job = Job(k: nat, id: string, req: Request, approver: string, ttl: Time)

  /** Signing happens outside the lock, between the claim and the commit. */
  datatype Phase = Claimed | Signed(until: Time, outcome: Outcome<Result, Error>) | Committed(res: Result)

  datatype Worker = Worker(job: Job, phase: Phase)

  /** A waiter blocked on the shared channel, holding a private copy, or past its receive. */
  datatype Wait = OnChannel(id: string) | OnCopy(id: string, res: Result) | Received(id: string, res: Result)

  /** A sign request on the lease fast path, one clock reading per stage. */
  datatype Reuse =
    | Found(req: Request, lease: Lease.ActiveLease, foundAt: Time)
    | Measured(req: Request, lease: Lease.ActiveLease, foundAt: Time, measuredAt: Time)
    | Minted(req: Request, res: Result)

  // --- History ---

  datatype Record =
    | DidCreate(id: string, req: Request)
    | DidClaim(job: Job)
    | DidIssue(job: Job, at: Time, res: Result)
    | DidFinish(id: string, state: State, res: Result, sent: bool, cause: Option<Job>)
    | DidGrant(job: Job, res: Result, key: Lease.FullKey, until: Time)
    | DidReissue(req: Request, lease: Lease.ActiveLease, foundAt: Time, measuredAt: Time, issuedAt: Time, res: Result)
    | DidRegister(id: string, req: Request, res: Result)
    | DidReceive(k: nat, id: string, res: Result)

  /** Live transactions, transactions deleted from the table but still referred to, leases, threads,
      the latest clock reading and everything that ever happened. */
  datatype World = World(txs: Table, gone: Table, leases: Lease.Leases, workers: map<nat, Worker>,
                         waits: map<nat, Wait>, reuses: map<nat, Reuse>, clock: Time, log: seq<Record>)

  const INIT := World(map[], map[], map[], map[], map[], map[], 0, [])

  predicate Known(w: World, id: string) {
    id in w.txs || id in w.gone
  }

  function At(w: World, id: string): Entry
    requires Known(w, id)
  {
    if id in w.txs then w.txs[id] else w.gone[id]
  }

  // --- Steps ---

  datatype Event =
    | Create(id: string, req: Request, now: Time)
    | BeginApprove(k: nat, id: string, approver: string, ttl: Time)
    | Sign(k: nat, now: Time, signer: Signer)
    | Commit(k: nat)
    | Grant(k: nat)
    | Deny(id: string)
    | Expire(id: string)
    | BeginWait(k: nat, id: string)
    | Receive(k: nat)
    | EndWait(k: nat)
    | Cancel(k: nat)
    | Find(k: nat, req: Request, now: Time, best: Option<Lease.ActiveLease>)
    | Measure(k: nat, now: Time)
    | Reissue(k: nat, now: Time, signer: Signer)
    | Register(k: nat, id: string, now: Time)
    | Purge(now: Time)

  /** The new world, with the log still to be extended by the record. */
  type Effect = (World, Option<Record>)

  function Idle(w: World): Effect {
    (w, None)
  }

  function DoCreate(w: World, id: string, req: Request, now: Time): Effect {
    if Known(w, id) || now < w.clock then Idle(w)
    else (w.(txs := w.txs[id := Opened(id, req, now)], clock := now), Some(DidCreate(id, req)))
  }

  function DoClaim(w: World, k: nat, id: string, approver: string, ttl: Time): Effect {
    var (txs, ok) := Claim(w.txs, id);
    if k in w.workers || !ok then Idle(w)
    else
      var job := Job(k, id, txs[id].tx.req, approver, EffectiveTTL(ttl));
      (w.(txs := txs, workers := w.workers[k := Worker(job, Claimed)]), Some(DidClaim(job)))
  }

  function DoSign(c: Config, w: World, k: nat, now: Time, signer: Signer): Effect {
    if k !in w.workers || !w.workers[k].phase.Claimed? || now < w.clock then Idle(w)
    else
      var job := w.workers[k].job;
      var until := now + job.ttl;
      var res := Issue(c, job.req, until, signer);
      (w.(workers := w.workers[k := Worker(job, Signed(until, res))], clock := now),
       if res.Ok? then Some(DidIssue(job, now, res.value)) else None)
  }

  function DoCommit(w: World, k: nat): Effect {
    if k !in w.workers || !w.workers[k].phase.Signed? then Idle(w)
    else
      var Worker(job, Signed(until, res)) := w.workers[k];
      match res
      case Err(e) => DoFinish(w.(workers := w.workers - {k}), job.id, Approving, Denied, Failure(e), None)
      case Ok(r) =>
        var stamped := r.(leaseExpiresAt := until);
        if InState(w.txs, job.id, Approving) then
          DoFinish(w.(workers := w.workers[k := Worker(job, Committed(stamped))]), job.id, Approving, Approved, stamped,
              Some(job))
        else (w.(workers := w.workers - {k}), None)
  }

  function DoFinish(w: World, id: string, from: State, s: State, res: Result, cause: Option<Job>): Effect {
    var (txs, ok) := FinishFrom(w.txs, id, from, s, res);
    (w.(txs := txs), if ok then Some(DidFinish(id, s, res, CanSend(w.txs[id]), cause)) else None)
  }

  function DoGrant(c: Config, w: World, k: nat): Effect {
    if k !in w.workers || !w.workers[k].phase.Committed? then Idle(w)
    else
      var Worker(job, Committed(res)) := w.workers[k];
      var done := w.(workers := w.workers - {k});
      var key := Lease.FullKey(LookupOf(job.req), job.approver);
      if LeaseAllowed(c, job.req, job.approver) then
        (done.(leases := Lease.PutLease(w.leases, key, res.leaseExpiresAt)),
            Some(DidGrant(job, res, key, res.leaseExpiresAt)))
      else (done, None)
  }

  function DoWait(w: World, k: nat, id: string): Effect {
    if k in w.waits then Idle(w)
    else
      var (txs, waiting) := WaitOn(w.txs, id);
      match waiting
      case Absent => Idle(w)
      case Joined => (w.(txs := txs, waits := w.waits[k := OnChannel(id)]), None)
      case Copied(res) => (w.(waits := w.waits[k := OnCopy(id, res)]), None)
  }

  /** A receive needs a value: in the private copy, or in the channel, which the receive empties. */
  function DoReceive(w: World, k: nat): Effect {
    if k !in w.waits then Idle(w)
    else
      match w.waits[k]
      case Received(_, _) => Idle(w)
      case OnCopy(id, res) => (w.(waits := w.waits[k := Received(id, res)]), Some(DidReceive(k, id, res)))
      case OnChannel(id) =>
        if !Known(w, id) || At(w, id).slot.None? then Idle(w)
        else
          var (e, r) := Take(At(w, id));
          var w' := if id in w.txs then w.(txs := w.txs[id := e]) else w.(gone := w.gone[id := e]);
          (w'.(waits := w.waits[k := Received(id, r.value)]), Some(DidReceive(k, id, r.value)))
  }

  /** Deletion from the table, wherever it happens, leaves the entry to those who still hold it. */
  function Detach(w: World, id: string): World {
    if id in w.txs then w.(txs := w.txs - {id}, gone := w.gone[id := w.txs[id]]) else w
  }

  function DoEndWait(w: World, k: nat): Effect {
    if k !in w.waits || !w.waits[k].Received? then Idle(w)
    else (Detach(w, w.waits[k].id).(waits := w.waits - {k}), None)
  }

  function DoCancel(w: World, k: nat): Effect {
    if k !in w.waits || w.waits[k].Received? then Idle(w)
    else
      var id, left := w.waits[k].id, w.(waits := w.waits - {k});
      var txs := CancelWait(w.txs, id);
      if id in w.txs && id !in txs then (Detach(left, id), None) else (left.(txs := txs), None)
  }

  /** The handler asks for a lease unless the destination is only client-reported. */
  function DoFind(c: Config, w: World, k: nat, req: Request, now: Time, best: Option<Lease.ActiveLease>): Effect {
    if !c.leases || req.disableLease || k in w.reuses || now < w.clock || best.None?
       || !Lease.IsBest(w.leases, LookupOf(req), now, best) then Idle(w)
    else (w.(reuses := w.reuses[k := Found(req, best.value, now)], clock := now), None)
  }

  function DoMeasure(w: World, k: nat, now: Time): Effect {
    if k !in w.reuses || !w.reuses[k].Found? || now < w.clock then Idle(w)
    else
      var Found(req, l, foundAt) := w.reuses[k];
      if Lease.Remaining(l, now) <= 0 then (w.(reuses := w.reuses - {k}, clock := now), None)
      else (w.(reuses := w.reuses[k := Measured(req, l, foundAt, now)], clock := now), None)
  }

  function DoReissue(c: Config, w: World, k: nat, now: Time, signer: Signer): Effect {
    if k !in w.reuses || !w.reuses[k].Measured? || now < w.clock then Idle(w)
    else
      var Measured(req, l, foundAt, measuredAt) := w.reuses[k];
      match Issue(c, req, now + Lease.Remaining(l, measuredAt), signer)
      case Err(_) => (w.(reuses := w.reuses - {k}, clock := now), None)
      case Ok(r) =>
        var res := r.(leaseExpiresAt := l.expiresAt);
        (w.(reuses := w.reuses[k := Minted(req, res)], clock := now),
            Some(DidReissue(req, l, foundAt, measuredAt, now, res)))
  }

  /** What CreateInstantApproved keeps of the request. */
  function InstantRequest(req: Request): Request {
    Request(req.targetUser, req.targetIP, req.publicKey, req.sourceIP, req.clientCertFP, "", "", "", false)
  }

  function DoRegister(w: World, k: nat, id: string, now: Time): Effect {
    if k !in w.reuses || !w.reuses[k].Minted? || Known(w, id) || now < w.clock then Idle(w)
    else
      var Minted(req, res) := w.reuses[k];
      (w.(txs := w.txs[id := Instant(id, InstantRequest(req), res, now)], reuses := w.reuses - {k}, clock := now),
       Some(DidRegister(id, InstantRequest(req), res)))
  }

  function DoPurge(w: World, now: Time): Effect {
    if now < w.clock then Idle(w) else (w.(leases := Lease.Unexpired(w.leases, now), clock := now), None)
  }

  function Do(c: Config, w: World, e: Event): Effect {
    match e
    case Create(id, req, now) => DoCreate(w, id, req, now)
    case BeginApprove(k, id, approver, ttl) => DoClaim(w, k, id, approver, ttl)
    case Sign(k, now, signer) => DoSign(c, w, k, now, signer)
    case Commit(k) => DoCommit(w, k)
    case Grant(k) => DoGrant(c, w, k)
    case Deny(id) => DoFinish(w, id, Pending, Denied, Failure(DeniedByApprover), None)
    case Expire(id) => DoFinish(w, id, Pending, Expired, Failure(Timeout), None)
    case BeginWait(k, id) => DoWait(w, k, id)
    case Receive(k) => DoReceive(w, k)
    case EndWait(k) => DoEndWait(w, k)
    case Cancel(k) => DoCancel(w, k)
    case Find(k, req, now, best) => DoFind(c, w, k, req, now, best)
    case Measure(k, now) => DoMeasure(w, k, now)
    case Reissue(k, now, signer) => DoReissue(c, w, k, now, signer)
    case Register(k, id, now) => DoRegister(w, k, id, now)
    case Purge(now) => DoPurge(w, now)
  }

  function Extend(log: seq<Record>, r: Option<Record>): seq<Record> {
    if r.Some? then log + [r.value] else log
  }

  function Step(c: Config, w: World, e: Event): World {
    var (w', r) := Do(c, w, e);
    w'.(log := Extend(w.log, r))
  }

  /** Any sequence of events is a run: an event that is not enabled changes nothing. */
  function Run(c: Config, events: seq<Event>): World {
    if events == [] then INIT else Step(c, Run(c, events[..|events| - 1]), events[|events| - 1])
  }
}
