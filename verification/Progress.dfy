/** What a request gets when nobody interferes: from any world, the events of one request lead to the
    answer the approver, the timer or the lease gives it. */
module Progress {
  import opened Prelude
  import opened Approval
  import opened Protocol
  import Lease

  // --- Asking and waiting ---

  function Asked(c: Config, w: World, k: nat, id: string, req: Request, now: Time): World {
    Step(c, Step(c, w, Create(id, req, now)), BeginWait(k, id))
  }

  /** A new transaction is pending, with one waiter on its empty channel. */
  lemma AskedExact(c: Config, w: World, k: nat, id: string, req: Request, now: Time)
    requires !Known(w, id) && k !in w.waits && w.clock <= now
    ensures var w' := Asked(c, w, k, id, req, now);
            && w'.txs == w.txs[id := Entry(Transaction(id, req, Pending, now), None, None, false, 1)]
            && w'.waits == w.waits[k := OnChannel(id)] && w'.log == w.log + [DidCreate(id, req)] && w'.clock == now
            && w'.gone == w.gone && w'.leases == w.leases && w'.workers == w.workers && w'.reuses == w.reuses
  {
    var w1 := Step(c, w, Create(id, req, now));
    assert w1.txs == w.txs[id := Entry(Transaction(id, req, Pending, now), None, None, false, 0)];
    assert w1.waits == w.waits;
  }

  /** A waiter on a filled channel takes the value, once. */
  lemma ReceiveExact(c: Config, w: World, k: nat, id: string, res: Result)
    requires k in w.waits && w.waits[k] == OnChannel(id) && id in w.txs && w.txs[id].slot == Some(res)
    ensures var w' := Step(c, w, Receive(k));
            && w'.txs == w.txs[id := w.txs[id].(slot := None)] && w'.waits == w.waits[k := Received(id, res)]
            && w'.log == w.log + [DidReceive(k, id, res)] && w'.leases == w.leases && w'.gone == w.gone
  {
  }

  /** Even when the transaction has been deleted meanwhile. */
  lemma ReceiveDeleted(c: Config, w: World, k: nat, id: string, res: Result)
    requires k in w.waits && w.waits[k] == OnChannel(id) && id !in w.txs && id in w.gone && w.gone[id].slot == Some(res)
    ensures var w' := Step(c, w, Receive(k));
            && w'.gone == w.gone[id := w.gone[id].(slot := None)] && w'.waits == w.waits[k := Received(id, res)]
            && w'.log == w.log + [DidReceive(k, id, res)] && w'.txs == w.txs
  {
  }

  /** A waiter that comes after the result gets a copy and leaves the channel as it is. */
  lemma CopyExact(c: Config, w: World, k: nat, id: string, res: Result)
    requires k !in w.waits && id in w.txs && w.txs[id].result == Some(res)
    ensures var w' := Step(c, Step(c, w, BeginWait(k, id)), Receive(k));
            && w'.txs == w.txs && w'.waits == w.waits[k := Received(id, res)]
            && w'.log == w.log + [DidReceive(k, id, res)] && w'.leases == w.leases && w'.gone == w.gone
  {
    var w1 := Step(c, w, BeginWait(k, id));
    assert w1.waits == w.waits[k := OnCopy(id, res)] && w1.txs == w.txs && w1.log == w.log;
  }

  /** A waiter that has its value takes the transaction out of the table with it. */
  lemma EndWaitRemoves(c: Config, w: World, k: nat, id: string, res: Result)
    requires k in w.waits && w.waits[k] == Received(id, res) && id in w.txs
    ensures var w' := Step(c, w, EndWait(k));
            w'.txs == w.txs - {id} && id in w'.gone && w'.gone[id] == w.txs[id] && w'.waits == w.waits - {k}
  {
  }

  // --- Refusals ---

  /** Denied or timed out, the waiter receives just that. */
  lemma RefusalDelivers(c: Config, w: World, k: nat, id: string, req: Request, now: Time, denied: bool)
    requires !Known(w, id) && k !in w.waits && w.clock <= now
    ensures var w1 := Step(c, Asked(c, w, k, id, req, now), if denied then Deny(id) else Expire(id));
            var res := Result("", "", 0, 0, Some(if denied then DeniedByApprover else Timeout));
            && id in w1.txs && w1.txs[id].tx.state == (if denied then Denied else Expired)
            && Step(c, w1, Receive(k)).log == w1.log + [DidReceive(k, id, res)]
            && Step(c, w1, Receive(k)).leases == w.leases
  {
    AskedExact(c, w, k, id, req, now);
    var w0 := Asked(c, w, k, id, req, now);
    var res := Result("", "", 0, 0, Some(if denied then DeniedByApprover else Timeout));
    RefusalExact(c, w0, id, denied);
    ReceiveExact(c, Step(c, w0, if denied then Deny(id) else Expire(id)), k, id, res);
  }

  lemma RefusalExact(c: Config, w: World, id: string, denied: bool)
    requires id in w.txs && w.txs[id].tx.state.Pending? && w.txs[id].result.None?
    requires w.txs[id].slot.None? && !w.txs[id].closed
    ensures var w' := Step(c, w, if denied then Deny(id) else Expire(id));
            var res := Result("", "", 0, 0, Some(if denied then DeniedByApprover else Timeout));
            && id in w'.txs && w'.txs[id].tx.state == (if denied then Denied else Expired)
            && w'.txs[id].slot == w'.txs[id].result == Some(res) && w'.waits == w.waits && w'.leases == w.leases
  {
    var res := Result("", "", 0, 0, Some(if denied then DeniedByApprover else Timeout));
    FinishExact(w, id, Pending, if denied then Denied else Expired, res);
  }

  /** A finish sets state and result and fills an empty channel; everything else stays. */
  lemma FinishExact(w: World, id: string, from: State, s: State, res: Result)
    requires id in w.txs && w.txs[id].tx.state == from && w.txs[id].result.None?
    requires w.txs[id].slot.None? && !w.txs[id].closed
    ensures var e, (t, ok) := w.txs[id], FinishFrom(w.txs, id, from, s, res);
            && ok
            && t == w.txs[id := Entry(Transaction(e.tx.id, e.tx.req, s, e.tx.createdAt), Some(res), Some(res), false,
                                      e.waiters)]
  {
  }

  // --- Approval ---

  function Lasting(ttl: Time): Time {
    if ttl <= 0 then 300 * SECOND else ttl
  }

  /** Claiming a pending transaction and signing for it. */
  lemma ClaimAndSign(c: Config, w: World, k: nat, id: string, approver: string, ttl: Time, now: Time, signer: Signer)
    requires id in w.txs && w.txs[id].tx.state.Pending? && w.txs[id].result.None?
    requires k !in w.workers && w.clock <= now
    ensures var req, until := w.txs[id].tx.req, now + Lasting(ttl);
            var w' := Step(c, Step(c, w, BeginApprove(k, id, approver, ttl)), Sign(k, now, signer));
            var job := Job(k, id, req, approver, Lasting(ttl));
            && w'.txs == w.txs[id := w.txs[id].(tx := w.txs[id].tx.(state := Approving))]
            && w'.workers == w.workers[k := Worker(job, Signed(until, Issue(c, req, until, signer)))]
            && w'.waits == w.waits && w'.leases == w.leases && w'.gone == w.gone
  {
    var w1 := Step(c, w, BeginApprove(k, id, approver, ttl));
    assert w1.workers == w.workers[k := Worker(Job(k, id, w.txs[id].tx.req, approver, Lasting(ttl)), Claimed)];
    assert w1.txs == w.txs[id := w.txs[id].(tx := w.txs[id].tx.(state := Approving))];
  }

  /** The leases after the commit of an approval: one is put exactly when leases are on, approver and
      client are known and the request allows it. */
  function Granted(c: Config, leases: Lease.Leases, req: Request, approver: string, until: Time): Lease.Leases {
    if c.leases && approver != "" && req.clientCertFP != "" && !req.disableLease then
      var lookup := Lease.LookupKey(req.clientCertFP, req.targetUser, req.targetIP, req.sourceIP, req.hostKeyFP,
                                    req.destinationFP);
      leases[Lease.FullKey(lookup, approver) := Lease.ActiveLease(approver, until)]
    else leases
  }

  function Finishing(c: Config, w: World, k: nat): World {
    Step(c, Step(c, w, Commit(k)), Grant(k))
  }

  /** Committing a credential for a claimed transaction, and leaving a lease. */
  lemma CommitAndGrant(c: Config, w: World, k: nat, job: Job, until: Time, r: Result)
    requires k in w.workers && w.workers[k] == Worker(job, Signed(until, Ok(r)))
    requires job.id in w.txs && w.txs[job.id].tx.state.Approving? && w.txs[job.id].result.None?
    requires w.txs[job.id].slot.None? && !w.txs[job.id].closed
    ensures var e, w', res := w.txs[job.id], Finishing(c, w, k), r.(leaseExpiresAt := until);
            && w'.txs == w.txs[job.id := Entry(Transaction(e.tx.id, e.tx.req, Approved, e.tx.createdAt),
                                               Some(res), Some(res), false, e.waiters)]
            && w'.leases == Granted(c, w.leases, job.req, job.approver, until)
            && w'.workers == w.workers - {k} && w'.waits == w.waits && w'.gone == w.gone
  {
    var w1, res := Step(c, w, Commit(k)), r.(leaseExpiresAt := until);
    FinishExact(w, job.id, Approving, Approved, res);
    assert w1.workers == w.workers[k := Worker(job, Committed(res))] && w1.leases == w.leases;
    assert w1.workers - {k} == w.workers - {k};
  }

  /** Committing a failure: denied with the signer's error, and no lease. */
  lemma CommitFailure(c: Config, w: World, k: nat, job: Job, until: Time, e: Error)
    requires k in w.workers && w.workers[k] == Worker(job, Signed(until, Err(e)))
    requires job.id in w.txs && w.txs[job.id].tx.state.Approving? && w.txs[job.id].result.None?
    requires w.txs[job.id].slot.None? && !w.txs[job.id].closed
    ensures var w', res := Finishing(c, w, k), Result("", "", 0, 0, Some(e));
            && job.id in w'.txs && w'.txs[job.id].tx.state == Denied && w'.txs[job.id].slot == Some(res)
            && w'.leases == w.leases && w'.waits == w.waits
  {
    FinishExact(w, job.id, Approving, Denied, Result("", "", 0, 0, Some(e)));
    var w1 := Step(c, w, Commit(k));
    assert k !in w1.workers;
  }

  function Answered(c: Config, w: World, k: nat, id: string, approver: string, ttl: Time, now: Time, signer: Signer)
    : World
  {
    Finishing(c, Step(c, Step(c, w, BeginApprove(k, id, approver, ttl)), Sign(k, now, signer)), k)
  }

  /** What the waiter of an approved transaction is given. */
  function Verdict(issued: Outcome<Result, Error>, until: Time): Result {
    match issued
    case Ok(r) => r.(leaseExpiresAt := until)
    case Err(e) => Result("", "", 0, 0, Some(e))
  }

  /** What an approval makes of a pending transaction. */
  lemma AnsweredExact(c: Config, w: World, k: nat, id: string, approver: string, ttl: Time, now: Time, signer: Signer)
    requires id in w.txs && w.txs[id].tx.state.Pending? && w.txs[id].result.None?
    requires w.txs[id].slot.None? && !w.txs[id].closed && k !in w.workers && w.clock <= now
    ensures var w' := Answered(c, w, k, id, approver, ttl, now, signer);
            var req, until := w.txs[id].tx.req, now + Lasting(ttl);
            var issued := Issue(c, req, until, signer);
            && id in w'.txs && w'.waits == w.waits && w'.txs[id].tx.state == (if issued.Ok? then Approved else Denied)
            && w'.txs[id].slot == Some(Verdict(issued, until))
            && w'.leases == if issued.Ok? then Granted(c, w.leases, req, approver, until) else w.leases
  {
    var req, until := w.txs[id].tx.req, now + Lasting(ttl);
    ClaimAndSign(c, w, k, id, approver, ttl, now, signer);
    var w' := Step(c, Step(c, w, BeginApprove(k, id, approver, ttl)), Sign(k, now, signer));
    var job := Job(k, id, req, approver, Lasting(ttl));
    match Issue(c, req, until, signer) {
      case Ok(r) => CommitAndGrant(c, w', k, job, until, r);
      case Err(e) => CommitFailure(c, w', k, job, until, e);
    }
  }

  /** Approved, the waiter finds in its channel what the signer answered, valid from the signing for the
      approved time or for five minutes, and the lease ends with it. */
  lemma ApprovalDelivers(c: Config, w: World, k: nat, id: string, req: Request, asked: Time, approver: string,
                         ttl: Time, now: Time, signer: Signer, w1: World)
    requires !Known(w, id) && k !in w.waits && k !in w.workers && w.clock <= asked <= now
    requires w1 == Answered(c, Asked(c, w, k, id, req, asked), k, id, approver, ttl, now, signer)
    ensures k in w1.waits && w1.waits[k] == OnChannel(id) && id in w1.txs
    ensures var until := now + Lasting(ttl);
            var issued := Issue(c, req, until, signer);
            && w1.txs[id].slot == Some(Verdict(issued, until))
            && w1.leases == if issued.Ok? then Granted(c, w.leases, req, approver, until) else w.leases
  {
    AskedExact(c, w, k, id, req, asked);
    AnsweredExact(c, Asked(c, w, k, id, req, asked), k, id, approver, ttl, now, signer);
  }

  // --- Leases ---

  /** When the clock is read on the way. */
  datatype Times = Times(found: Time, measured: Time, issued: Time, made: Time)

  function Reused(c: Config, w: World, k: nat, req: Request, t: Times, l: Lease.ActiveLease, signer: Signer): World {
    var w' := Step(c, Step(c, w, Find(k, req, t.found, Some(l))), Measure(k, t.measured));
    Step(c, w', Reissue(k, t.issued, signer))
  }

  /** A longest-lived lease of the session, still running at both looks, is turned into a credential. */
  lemma ReuseExact(c: Config, w: World, k: nat, req: Request, t: Times, f: Lease.FullKey, signer: Signer, r: Result)
    requires c.leases && !req.disableLease && k !in w.reuses && w.clock <= t.found <= t.measured <= t.issued
    requires f in w.leases && w.leases[f].expiresAt > t.measured
    requires f.lookup == Lease.LookupKey(req.clientCertFP, req.targetUser, req.targetIP, req.sourceIP, req.hostKeyFP,
                                         req.destinationFP)
    requires forall g :: g in w.leases && g.lookup == f.lookup ==> w.leases[g].expiresAt <= w.leases[f].expiresAt
    requires Issue(c, req, t.issued + (w.leases[f].expiresAt - t.measured), signer) == Ok(r)
    ensures var w' := Reused(c, w, k, req, t, w.leases[f], signer);
            && k in w'.reuses && w'.reuses[k] == Minted(req, r.(leaseExpiresAt := w.leases[f].expiresAt))
            && SameButReuse(w, w') && w'.clock == t.issued
  {
    var l := w.leases[f];
    FindExact(c, w, k, req, t.found, f);
    MeasureExact(c, Step(c, w, Find(k, req, t.found, Some(l))), k, req, t.found, t.measured, l);
  }

  predicate SameButReuse(w: World, w': World) {
    w'.leases == w.leases && w'.txs == w.txs && w'.gone == w.gone && w'.waits == w.waits
  }

  lemma FindExact(c: Config, w: World, k: nat, req: Request, now: Time, f: Lease.FullKey)
    requires c.leases && !req.disableLease && k !in w.reuses && w.clock <= now
    requires f in w.leases && w.leases[f].expiresAt >= now
    requires f.lookup == Lease.LookupKey(req.clientCertFP, req.targetUser, req.targetIP, req.sourceIP, req.hostKeyFP,
                                         req.destinationFP)
    requires forall g :: g in w.leases && g.lookup == f.lookup ==> w.leases[g].expiresAt <= w.leases[f].expiresAt
    ensures var w' := Step(c, w, Find(k, req, now, Some(w.leases[f])));
            && k in w'.reuses && w'.reuses[k] == Found(req, w.leases[f], now) && w'.clock == now && SameButReuse(w, w')
  {
  }

  lemma MeasureExact(c: Config, w: World, k: nat, req: Request, found: Time, now: Time, l: Lease.ActiveLease)
    requires k in w.reuses && w.reuses[k] == Found(req, l, found) && w.clock <= now < l.expiresAt
    ensures var w' := Step(c, w, Measure(k, now));
            && k in w'.reuses && w'.reuses[k] == Measured(req, l, found, now) && w'.clock == now && SameButReuse(w, w')
  {
  }

  /** It is registered as a finished transaction, whose channel is filled and closed. */
  lemma RegisterExact(c: Config, w: World, k: nat, id: string, req: Request, res: Result, now: Time)
    requires k in w.reuses && w.reuses[k] == Minted(req, res) && !Known(w, id) && w.clock <= now
    ensures var w' := Step(c, w, Register(k, id, now));
            var kept := Request(req.targetUser, req.targetIP, req.publicKey, req.sourceIP, req.clientCertFP, "", "", "",
                                false);
            && w'.txs == w.txs[id := Entry(Transaction(id, kept, Approved, now), Some(res), Some(res), true, 0)]
            && w'.leases == w.leases && w'.waits == w.waits
  {
  }

  /** So a request on a running lease is served at once, without anybody's approval, and the lease is
      as it was. */
  lemma LeaseDelivers(c: Config, w: World, k: nat, id: string, req: Request, t: Times, f: Lease.FullKey, signer: Signer,
                      r: Result)
    requires c.leases && !req.disableLease && k !in w.reuses && k !in w.waits && !Known(w, id)
    requires w.clock <= t.found <= t.measured <= t.issued <= t.made
    requires f in w.leases && w.leases[f].expiresAt > t.measured
    requires f.lookup == Lease.LookupKey(req.clientCertFP, req.targetUser, req.targetIP, req.sourceIP, req.hostKeyFP,
                                         req.destinationFP)
    requires forall g :: g in w.leases && g.lookup == f.lookup ==> w.leases[g].expiresAt <= w.leases[f].expiresAt
    requires Issue(c, req, t.issued + (w.leases[f].expiresAt - t.measured), signer) == Ok(r)
    ensures var w1 := Step(c, Reused(c, w, k, req, t, w.leases[f], signer), Register(k, id, t.made));
            var w2 := Step(c, Step(c, w1, BeginWait(k, id)), Receive(k));
            && w2.log == w1.log + [DidReceive(k, id, r.(leaseExpiresAt := w.leases[f].expiresAt))]
            && w2.leases == w.leases
  {
    ReuseExact(c, w, k, req, t, f, signer, r);
    var w0, res := Reused(c, w, k, req, t, w.leases[f], signer), r.(leaseExpiresAt := w.leases[f].expiresAt);
    RegisterExact(c, w0, k, id, req, res, t.made);
    CopyExact(c, Step(c, w0, Register(k, id, t.made)), k, id, res);
  }

  /** A purge drops the leases that have run out and no others, and touches nothing else. */
  lemma PurgeExact(c: Config, w: World, now: Time, f: Lease.FullKey)
    requires w.clock <= now
    ensures var w' := Step(c, w, Purge(now));
            && (f in w'.leases <==> f in w.leases && now <= w.leases[f].expiresAt)
            && (f in w'.leases ==> w'.leases[f] == w.leases[f])
            && w'.txs == w.txs && w'.gone == w.gone && w'.waits == w.waits && w'.reuses == w.reuses && w'.log == w.log
  {
  }
}
