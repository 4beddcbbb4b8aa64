/** Everything that happens in a run is justified by what happened before it. */
module ProtocolHistory {
  import opened Prelude
  import opened Approval
  import opened Protocol
  import opened ProtocolTables
  import Lease

  // --- What justifies a record ---

  predicate Names(r: Record, id: string) {
    (r.DidCreate? || r.DidRegister?) && r.id == id
  }

  predicate ClaimsTx(r: Record, id: string) {
    r.DidClaim? && r.job.id == id
  }

  predicate IssuesTx(r: Record, id: string) {
    r.DidIssue? && r.job.id == id
  }

  predicate FinishesTx(r: Record, id: string) {
    r.DidFinish? && r.id == id
  }

  predicate GrantsTx(r: Record, id: string) {
    r.DidGrant? && r.job.id == id
  }

  /** The record that gave a transaction its result. */
  predicate Ends(r: Record, id: string, res: Result) {
    (r.DidFinish? || r.DidRegister?) && r.id == id && r.res == res
  }

  predicate GrantOf(r: Record, key: Lease.FullKey, until: Time) {
    r.DidGrant? && r.key == key && r.until == until
  }

  predicate ReissueOf(r: Record, req: Request, res: Result) {
    r.DidReissue? && r.req == req && r.res == res
  }

  /** Ids are fresh; a transaction is claimed, signed for, finished and granted a lease at most
      once, in that order and by one approver; leases are reissued only after a grant of the same
      key and expiry; and waiters receive nothing but the result. */
  ghost predicate Justified(c: Config, log: seq<Record>, r: Record) {
    match r
    case DidCreate(id, _) => forall x :: x in log ==> !Names(x, id)
    case DidClaim(job) =>
      && DidCreate(job.id, job.req) in log && job.ttl > 0
      && (forall x :: x in log ==> !ClaimsTx(x, job.id))
    case DidIssue(job, at, res) =>
      && DidClaim(job) in log && res.err.None? && res.expiresAt == at + job.ttl
      && (forall x :: x in log ==> !IssuesTx(x, job.id))
    case DidFinish(id, s, res, sent, cause) =>
      && Terminal(s) && sent
      && (forall x :: x in log ==> !FinishesTx(x, id))
      && (if s.Approved? then cause.Some? && cause.value.id == id
           && DidIssue(cause.value, res.leaseExpiresAt - cause.value.ttl, res.(leaseExpiresAt := 0)) in log
          else res.err.Some? && res.cert == "" && res.signature == "")
    case DidGrant(job, res, key, until) =>
      && DidFinish(job.id, Approved, res, true, Some(job)) in log && until == res.leaseExpiresAt
      && key == Lease.FullKey(LookupOf(job.req), job.approver) && LeaseAllowed(c, job.req, job.approver)
      && (forall x :: x in log ==> !GrantsTx(x, job.id))
    case DidReissue(req, l, foundAt, measuredAt, issuedAt, res) =>
      && !req.disableLease && res.err.None?
      && foundAt <= measuredAt <= issuedAt && foundAt <= l.expiresAt && measuredAt < l.expiresAt
      && res.leaseExpiresAt == l.expiresAt && res.expiresAt == l.expiresAt + (issuedAt - measuredAt)
      && (exists x :: x in log && GrantOf(x, Lease.FullKey(LookupOf(req), l.approver), l.expiresAt))
    case DidRegister(id, req, res) =>
      && (forall x :: x in log ==> !Names(x, id))
      && (exists x :: x in log && x.DidReissue? && InstantRequest(x.req) == req && x.res == res)
    case DidReceive(_, id, res) => exists x :: x in log && Ends(x, id, res)
  }

  // --- How the world agrees with its log ---

  predicate Origin(log: seq<Record>, id: string, e: Entry) {
    DidCreate(id, e.tx.req) in log || (e.result.Some? && DidRegister(id, e.tx.req, e.result.value) in log)
  }

  ghost predicate Filed(w: World) {
    && (forall r :: r in w.log && (r.DidCreate? || r.DidRegister?) ==> Known(w, r.id))
    && (forall id :: Known(w, id) ==> Origin(w.log, id, At(w, id)))
  }

  predicate PastPending(w: World, id: string) {
    Known(w, id) && !At(w, id).tx.state.Pending?
  }

  predicate EndedWith(w: World, id: string, res: Result) {
    Known(w, id) && At(w, id).result == Some(res)
  }

  predicate EndedIn(w: World, id: string, s: State, res: Result) {
    EndedWith(w, id, res) && At(w, id).tx.state == s
  }

  ghost predicate Settled(w: World) {
    && (forall r :: r in w.log && (r.DidClaim? || r.DidIssue?) ==> PastPending(w, r.job.id))
    && (forall r :: r in w.log && r.DidFinish? ==> EndedIn(w, r.id, r.state, r.res))
    && (forall r :: r in w.log && r.DidGrant? ==> EndedIn(w, r.job.id, Approved, r.res))
    && (forall r :: r in w.log && r.DidRegister? ==> EndedIn(w, r.id, Approved, r.res))
  }

  ghost predicate Recorded(w: World) {
    forall id :: Known(w, id) && At(w, id).result.Some? ==>
        exists r :: r in w.log && Ends(r, id, At(w, id).result.value)
  }

  // --- Facts about one step ---

  lemma FinishFacts(w: World, id: string, from: State, s: State, res: Result, cause: Option<Job>)
    requires Tables(w) && !Terminal(from)
    ensures var (w', r) := DoFinish(w, id, from, s, res, cause);
            && (r.Some? ==> EndedIn(w', id, s, res))
            && (forall i :: Known(w', i) ==> Known(w, i) && (At(w', i).result != At(w, i).result ==>
                 r.Some? && Ends(r.value, i, res) && At(w', i).result == Some(res)))
  {
    var (w', r) := DoFinish(w, id, from, s, res, cause);
    forall i | Known(w', i)
      ensures Known(w, i) && (At(w', i).result != At(w, i).result ==>
                r.Some? && Ends(r.value, i, res) && At(w', i).result == Some(res))
    {
      if i != id {
        assert At(w', i) == At(w, i);
      }
    }
  }

  /** New ids and new results show up in the record of the same step. */
  ghost predicate Announced(w: World, w': World, r: Option<Record>) {
    && (forall id :: Known(w', id) && !Known(w, id) ==> r.Some? && Origin([r.value], id, At(w', id)))
    && (forall id :: Known(w', id) && At(w', id).result.Some? ==>
          (Known(w, id) && At(w, id).result.Some?) || (r.Some? && Ends(r.value, id, At(w', id).result.value)))
  }

  lemma QuietAnnounced(w: World, w': World, r: Option<Record>)
    requires forall id :: Known(w', id) ==> Known(w, id) && At(w', id).result == At(w, id).result
    ensures Announced(w, w', r)
  {
  }

  lemma FinishAnnounced(w: World, v: World, id: string, from: State, s: State, res: Result, cause: Option<Job>)
    requires Tables(w) && v.txs == w.txs && v.gone == w.gone && !Terminal(from)
    ensures Announced(w, DoFinish(v, id, from, s, res, cause).0, DoFinish(v, id, from, s, res, cause).1)
  {
    FinishFacts(v, id, from, s, res, cause);
    SameEntries(w, v);
  }

  lemma CommitAnnounced(w: World, k: nat)
    requires Tables(w)
    ensures Announced(w, DoCommit(w, k).0, DoCommit(w, k).1)
  {
    var (w', r) := DoCommit(w, k);
    if k !in w.workers || !w.workers[k].phase.Signed? {
      QuietAnnounced(w, w', r);
    } else {
      var Worker(job, Signed(until, outcome)) := w.workers[k];
      if outcome.Err? {
        FinishAnnounced(w, w.(workers := w.workers - {k}), job.id, Approving, Denied, Failure(outcome.error), None);
      } else if InState(w.txs, job.id, Approving) {
        var res := outcome.value.(leaseExpiresAt := until);
        var v := w.(workers := w.workers[k := Worker(job, Committed(res))]);
        FinishAnnounced(w, v, job.id, Approving, Approved, res, Some(job));
      } else {
        SameEntries(w, w');
        QuietAnnounced(w, w', r);
      }
    }
  }

  lemma SameEntries(w: World, v: World)
    requires v.txs == w.txs && v.gone == w.gone
    ensures forall id :: Known(v, id) <==> Known(w, id)
    ensures forall id :: Known(w, id) ==> At(v, id) == At(w, id)
  {
  }

  lemma EventAnnounced(c: Config, w: World, e: Event)
    requires Tables(w)
    ensures Announced(w, Do(c, w, e).0, Do(c, w, e).1)
  {
    var (w', r) := Do(c, w, e);
    if Outside(e) {
      OutsideKeeps(c, w, e);
      SameEntries(w, w');
      QuietAnnounced(w, w', r);
    } else {
      match e {
        case Create(id, req, now) => CreateAnnounced(w, id, req, now);
        case BeginApprove(k, id, approver, ttl) => ClaimAnnounced(w, k, id, approver, ttl);
        case Commit(k) => CommitAnnounced(w, k);
        case Deny(id) => FinishFacts(w, id, Pending, Denied, Failure(DeniedByApprover), None);
        case Expire(id) => FinishFacts(w, id, Pending, Expired, Failure(Timeout), None);
        case BeginWait(k, id) => WaiterAnnounced(c, w, e);
        case Receive(k) => WaiterAnnounced(c, w, e);
        case EndWait(k) => WaiterAnnounced(c, w, e);
        case Cancel(k) => WaiterAnnounced(c, w, e);
        case Register(k, id, now) => RegisterAnnounced(w, k, id, now);
      }
    }
  }

  lemma CreateAnnounced(w: World, id: string, req: Request, now: Time)
    ensures Announced(w, DoCreate(w, id, req, now).0, DoCreate(w, id, req, now).1)
  {
  }

  lemma ClaimAnnounced(w: World, k: nat, id: string, approver: string, ttl: Time)
    ensures Announced(w, DoClaim(w, k, id, approver, ttl).0, DoClaim(w, k, id, approver, ttl).1)
  {
    QuietAnnounced(w, DoClaim(w, k, id, approver, ttl).0, DoClaim(w, k, id, approver, ttl).1);
  }

  ghost predicate KeepsResults(w: World, w': World) {
    forall id :: Known(w', id) ==> Known(w, id) && At(w', id).result == At(w, id).result
  }

  lemma WaitKeeps(w: World, k: nat, id: string)
    ensures KeepsResults(w, DoWait(w, k, id).0)
  {
  }

  lemma ReceiveKeeps(w: World, k: nat)
    ensures KeepsResults(w, DoReceive(w, k).0)
  {
  }

  lemma EndWaitKeeps(w: World, k: nat)
    requires Tables(w)
    ensures KeepsResults(w, DoEndWait(w, k).0)
  {
  }

  lemma CancelKeeps(w: World, k: nat)
    requires Tables(w)
    ensures KeepsResults(w, DoCancel(w, k).0)
  {
  }

  lemma WaiterAnnounced(c: Config, w: World, e: Event)
    requires Tables(w) && (e.BeginWait? || e.Receive? || e.EndWait? || e.Cancel?)
    ensures Announced(w, Do(c, w, e).0, Do(c, w, e).1)
  {
    var (w', r) := Do(c, w, e);
    assert KeepsResults(w, w') by {
      match e {
        case BeginWait(k, id) => WaitKeeps(w, k, id);
        case Receive(k) => ReceiveKeeps(w, k);
        case EndWait(k) => EndWaitKeeps(w, k);
        case Cancel(k) => CancelKeeps(w, k);
      }
    }
    QuietAnnounced(w, w', r);
  }

  lemma RegisterAnnounced(w: World, k: nat, id: string, now: Time)
    ensures Announced(w, DoRegister(w, k, id, now).0, DoRegister(w, k, id, now).1)
  {
  }

  // --- Approvers ---

  predicate InApproval(w: World, id: string) {
    Known(w, id) && At(w, id).tx.state.Approving?
  }

  ghost predicate PhaseOk(w: World, job: Job, phase: Phase) {
    match phase
    case Claimed => InApproval(w, job.id) && (forall x :: x in w.log ==> !IssuesTx(x, job.id))
    case Signed(until, outcome) =>
      && InApproval(w, job.id)
      && (outcome.Ok? ==> outcome.value.leaseExpiresAt == 0 && DidIssue(job, until - job.ttl, outcome.value) in w.log)
    case Committed(res) =>
      && DidFinish(job.id, Approved, res, true, Some(job)) in w.log
      && (forall x :: x in w.log ==> !GrantsTx(x, job.id))
  }

  ghost predicate JobOk(w: World, k: nat, v: Worker) {
    && v.job.k == k && v.job.ttl > 0
    && Known(w, v.job.id) && At(w, v.job.id).tx.req == v.job.req
    && DidClaim(v.job) in w.log
    && PhaseOk(w, v.job, v.phase)
  }

  /** Every approver in flight has claimed its transaction, and no two the same one. */
  ghost predicate Jobs(w: World) {
    && (forall k :: k in w.workers ==> JobOk(w, k, w.workers[k]))
    && OneEach(w.workers)
  }

  predicate OneEach(workers: map<nat, Worker>) {
    forall j, k :: j in workers && k in workers && j != k ==> workers[j].job.id != workers[k].job.id
  }

  /** The approver an event belongs to. */
  function Actor(e: Event): Option<nat> {
    match e
    case BeginApprove(k, _, _, _) => Some(k)
    case Sign(k, _, _) => Some(k)
    case Commit(k) => Some(k)
    case Grant(k) => Some(k)
    case _ => None
  }

  predicate RecordsJob(r: Record) {
    r.DidClaim? || r.DidIssue? || r.DidGrant?
  }

  /** Only the event's own approver moves, and a record about a job is about its job. */
  predicate WorkerFrame(w: World, k: nat, w': World, r: Option<Record>) {
    && (forall j :: j != k && j in w'.workers ==> j in w.workers && w'.workers[j] == w.workers[j])
    && (r.Some? && (r.value.DidIssue? || r.value.DidGrant?) ==> k in w.workers && r.value.job == w.workers[k].job)
  }

  lemma ClaimFrame(w: World, k: nat, id: string, approver: string, ttl: Time)
    ensures var (w', r) := DoClaim(w, k, id, approver, ttl); WorkerFrame(w, k, w', r)
  {
  }

  lemma SignFrame(c: Config, w: World, k: nat, now: Time, signer: Signer)
    ensures var (w', r) := DoSign(c, w, k, now, signer); WorkerFrame(w, k, w', r)
  {
  }

  lemma CommitFrame(w: World, k: nat)
    ensures var (w', r) := DoCommit(w, k); WorkerFrame(w, k, w', r)
  {
  }

  lemma GrantFrame(c: Config, w: World, k: nat)
    ensures var (w', r) := DoGrant(c, w, k); WorkerFrame(w, k, w', r)
  {
  }

  lemma WorkersFrame(c: Config, w: World, e: Event)
    ensures var (w', r) := Do(c, w, e);
            && (Actor(e).None? ==> w'.workers == w.workers && (r.Some? ==> !RecordsJob(r.value)))
            && (forall j :: Some(j) != Actor(e) && j in w'.workers ==> j in w.workers && w'.workers[j] == w.workers[j])
            && (r.Some? && (r.value.DidIssue? || r.value.DidGrant?) ==>
                  Actor(e).value in w.workers && r.value.job == w.workers[Actor(e).value].job)
  {
    match e {
      case BeginApprove(k, id, approver, ttl) => ClaimFrame(w, k, id, approver, ttl);
      case Sign(k, now, signer) => SignFrame(c, w, k, now, signer);
      case Commit(k) => CommitFrame(w, k);
      case Grant(k) => GrantFrame(c, w, k);
      case _ => OthersFrame(c, w, e);
    }
  }

  lemma OthersFrame(c: Config, w: World, e: Event)
    requires Actor(e).None?
    ensures var (w', r) := Do(c, w, e);
            w'.workers == w.workers && (r.Some? ==> !RecordsJob(r.value))
  {
  }

  /** What a record says about the world it is written in. */
  predicate Source(w: World, e: Event, r: Record) {
    match r
    case DidCreate(id, _) => !Known(w, id)
    case DidRegister(id, _, _) => !Known(w, id)
    case DidFinish(id, s, res, sent, cause) =>
      && id in w.txs && w.txs[id].result.None? && sent == CanSend(w.txs[id]) && Terminal(s)
      && (w.txs[id].tx.state.Pending? || (e.Commit? && e.k in w.workers && w.workers[e.k].job.id == id))
    case _ => true
  }

  lemma CommitSource(w: World, k: nat)
    ensures DoCommit(w, k).1.Some? ==> Source(w, Commit(k), DoCommit(w, k).1.value)
  {
  }

  lemma EventSource(c: Config, w: World, e: Event)
    ensures Do(c, w, e).1.Some? ==> Source(w, e, Do(c, w, e).1.value)
  {
    match e {
      case Create(id, req, now) => var w' := DoCreate(w, id, req, now).0;
      case Commit(k) => CommitSource(w, k);
      case Deny(id) => var w' := DoFinish(w, id, Pending, Denied, Failure(DeniedByApprover), None).0;
      case Expire(id) => var w' := DoFinish(w, id, Pending, Expired, Failure(Timeout), None).0;
      case Register(k, id, now) => var w' := DoRegister(w, k, id, now).0;
      case _ =>
    }
  }

  /** A transaction being approved stays so until a finish of its own is recorded. */
  lemma ApprovingStays(w: World, w': World, r: Option<Record>, id: string)
    requires Tables(w) && InApproval(w, id) && Moves(w, w') && Announced(w, w', r)
    requires r.Some? ==> !FinishesTx(r.value, id) && !Names(r.value, id)
    ensures InApproval(w', id)
  {
    assert Known(w, id) && Known(w', id);
    assert Sound(At(w, id)) && Sound(At(w', id));
  }

  lemma JobStays(w: World, w': World, r: Option<Record>, k: nat, v: Worker)
    requires JobOk(w, k, v) && Moves(w, w') && w'.log == Extend(w.log, r)
    requires v.phase.Committed? || InApproval(w', v.job.id)
    requires r.Some? ==> !IssuesTx(r.value, v.job.id) && !GrantsTx(r.value, v.job.id)
    ensures JobOk(w', k, v)
  {
    assert Known(w, v.job.id);
    forall x | x in w'.log ensures x in w.log || (r.Some? && x == r.value) {
    }
  }

  /** What is known of any step, whatever the event. */
  ghost predicate Stepped(w: World, w': World, e: Event, r: Option<Record>) {
    && Tables(w) && Moves(w, w') && Announced(w, w', r)
    && w'.log == Extend(w.log, r)
    && (r.Some? ==> Source(w, e, r.value))
  }

  lemma StepFacts(c: Config, w: World, e: Event)
    requires Tables(w)
    ensures Stepped(w, Step(c, w, e), e, Do(c, w, e).1)
  {
    var (w1, r) := Do(c, w, e);
    var w' := Step(c, w, e);
    StepMoves(c, w, e);
    EventAnnounced(c, w, e);
    EventSource(c, w, e);
    SameEntries(w1, w');
  }

  lemma OtherStays(w: World, w': World, e: Event, r: Option<Record>, j: nat)
    requires Stepped(w, w', e, r) && Jobs(w) && j in w.workers && Some(j) != Actor(e)
    requires r.Some? && (r.value.DidIssue? || r.value.DidGrant?) ==>
             Actor(e).Some? && Actor(e).value in w.workers && r.value.job == w.workers[Actor(e).value].job
    ensures JobOk(w', j, w.workers[j])
  {
    var v := w.workers[j];
    assert JobOk(w, j, v);
    if !v.phase.Committed? {
      ApprovingStays(w, w', r, v.job.id);
    }
    JobStays(w, w', r, j, v);
  }

  /** Approvers other than the event's own are not disturbed. */
  lemma OthersStay(c: Config, w: World, e: Event, j: nat)
    requires Tables(w) && Jobs(w) && j in Step(c, w, e).workers && Some(j) != Actor(e)
    ensures j in w.workers && Step(c, w, e).workers[j] == w.workers[j] && JobOk(Step(c, w, e), j, w.workers[j])
  {
    WorkersFrame(c, w, e);
    StepFacts(c, w, e);
    OtherStays(w, Step(c, w, e), e, Do(c, w, e).1, j);
  }

  // --- The event's own approver ---

  /** A fresh claim: nothing was ever recorded of an approval of a pending transaction. */
  lemma PendingUntouched(w: World, id: string)
    requires Settled(w) && id in w.txs && w.txs[id].tx.state.Pending?
    ensures forall x :: x in w.log ==> !ClaimsTx(x, id) && !IssuesTx(x, id)
  {
    forall x | x in w.log && (x.DidClaim? || x.DidIssue?) ensures x.job.id != id {
      assert PastPending(w, x.job.id);
    }
  }

  lemma ClaimJob(w: World, w': World, e: Event, job: Job)
    requires e.BeginApprove? && Settled(w) && Stepped(w, w', e, Some(DidClaim(job)))
    requires InState(w.txs, job.id, Pending) && InApproval(w', job.id) && job.req == w.txs[job.id].tx.req && job.ttl > 0
    ensures JobOk(w', job.k, Worker(job, Claimed))
  {
    PendingUntouched(w, job.id);
    assert Known(w, job.id) && Evolves(At(w, job.id), At(w', job.id));
    forall x | x in w'.log ensures !IssuesTx(x, job.id) {
      assert x in w.log || x == DidClaim(job);
    }
  }

  lemma SignJob(w: World, w': World, e: Event, r: Option<Record>, v: Worker, until: Time,
                outcome: Outcome<Result, Error>)
    requires e.Sign? && Stepped(w, w', e, r) && JobOk(w, v.job.k, v) && v.phase.Claimed? && InApproval(w', v.job.id)
    requires outcome.Ok? ==>
               outcome.value.leaseExpiresAt == 0 && r == Some(DidIssue(v.job, until - v.job.ttl, outcome.value))
    ensures JobOk(w', v.job.k, Worker(v.job, Signed(until, outcome)))
  {
    assert Known(w, v.job.id) && Evolves(At(w, v.job.id), At(w', v.job.id));
  }

  lemma CommitJob(w: World, w': World, e: Event, v: Worker, res: Result)
    requires e.Commit? && Settled(w) && JobOk(w, v.job.k, v)
    requires InState(w.txs, v.job.id, Approving)
    requires Stepped(w, w', e, Some(DidFinish(v.job.id, Approved, res, true, Some(v.job))))
    ensures JobOk(w', v.job.k, Worker(v.job, Committed(res)))
  {
    var id := v.job.id;
    assert Known(w, id) && Evolves(At(w, id), At(w', id));
    forall x | x in w.log && x.DidGrant? ensures x.job.id != id {
      assert EndedIn(w, x.job.id, Approved, x.res);
    }
  }

  lemma IssueOk(c: Config, req: Request, until: Time, signer: Signer)
    ensures Issue(c, req, until, signer).Ok? ==>
              var r := Issue(c, req, until, signer).value;
              r.err.None? && r.expiresAt == until && r.leaseExpiresAt == 0
  {
  }

  lemma ClaimActor(c: Config, w: World, k: nat, id: string, approver: string, ttl: Time)
    requires Tables(w) && Settled(w) && Jobs(w) && k !in w.workers
    ensures var w' := Step(c, w, BeginApprove(k, id, approver, ttl));
            k in w'.workers ==>
              && JobOk(w', k, w'.workers[k])
              && forall j :: j in w.workers ==> w.workers[j].job.id != w'.workers[k].job.id
  {
    var e := BeginApprove(k, id, approver, ttl);
    var w' := Step(c, w, e);
    if k in w'.workers {
      var job := w'.workers[k].job;
      StepFacts(c, w, e);
      ClaimJob(w, w', e, job);
      forall j | j in w.workers ensures w.workers[j].job.id != id {
        assert JobOk(w, j, w.workers[j]);
        assert PastPending(w, DidClaim(w.workers[j].job).job.id);
      }
    }
  }

  lemma IdleStep(c: Config, w: World, e: Event)
    requires Do(c, w, e) == Idle(w)
    ensures Step(c, w, e) == w
  {
  }

  lemma SignEffect(c: Config, w: World, k: nat, now: Time, signer: Signer)
    requires k in w.workers && w.workers[k].phase.Claimed? && now >= w.clock
    ensures var (w', r) := DoSign(c, w, k, now, signer);
            var job, until := w.workers[k].job, now + w.workers[k].job.ttl;
            var outcome := Issue(c, job.req, until, signer);
            && w'.txs == w.txs && w'.gone == w.gone && w'.workers == w.workers[k := Worker(job, Signed(until, outcome))]
            && (outcome.Ok? ==>
                  outcome.value.leaseExpiresAt == 0 && r == Some(DidIssue(job, until - job.ttl, outcome.value)))
  {
    IssueOk(c, w.workers[k].job.req, now + w.workers[k].job.ttl, signer);
  }

  lemma SignActor(c: Config, w: World, k: nat, now: Time, signer: Signer)
    requires Tables(w) && k in w.workers && JobOk(w, k, w.workers[k]) && w.workers[k].phase.Claimed? && now >= w.clock
    ensures var w' := Step(c, w, Sign(k, now, signer));
            k in w'.workers && w'.workers[k].job == w.workers[k].job && JobOk(w', k, w'.workers[k])
  {
    var e, v := Sign(k, now, signer), w.workers[k];
    var w', until := Step(c, w, e), now + v.job.ttl;
    SignEffect(c, w, k, now, signer);
    StepFacts(c, w, e);
    assert InApproval(w', v.job.id);
    SignJob(w, w', e, Do(c, w, e).1, v, until, Issue(c, v.job.req, until, signer));
  }

  lemma CommitEffect(w: World, k: nat)
    requires Tables(w) && k in w.workers && w.workers[k].phase.Signed? && k in DoCommit(w, k).0.workers
    ensures var (w', r) := DoCommit(w, k);
            var v, v' := w.workers[k], w'.workers[k];
            && v'.job == v.job && v'.phase.Committed? && InState(w.txs, v.job.id, Approving)
            && r == Some(DidFinish(v.job.id, Approved, v'.phase.res, true, Some(v.job)))
  {
    if w.workers[k].job.id in w.txs {
      assert Sound(w.txs[w.workers[k].job.id]);
    }
  }

  lemma CommitActor(c: Config, w: World, k: nat)
    requires Tables(w) && Settled(w) && k in w.workers && JobOk(w, k, w.workers[k]) && w.workers[k].phase.Signed?
    ensures var w' := Step(c, w, Commit(k));
            k in w'.workers ==> w'.workers[k].job == w.workers[k].job && JobOk(w', k, w'.workers[k])
  {
    var e, v := Commit(k), w.workers[k];
    var w' := Step(c, w, e);
    if k in w'.workers {
      CommitEffect(w, k);
      StepFacts(c, w, e);
      CommitJob(w, w', e, v, w'.workers[k].phase.res);
    }
  }

  /** What is true of the event's own approver after the event. */
  ghost predicate ActorDone(w: World, w': World, k: nat) {
    (k in w'.workers ==> JobOk(w', k, w'.workers[k])) && StillOne(w.workers, w'.workers, k)
  }

  predicate StillOne(workers: map<nat, Worker>, workers': map<nat, Worker>, k: nat) {
    k in workers' ==>
      && (k in workers ==> workers'[k].job == workers[k].job)
      && (k !in workers ==> forall j :: j in workers ==> workers[j].job.id != workers'[k].job.id)
  }

  lemma IdleDone(c: Config, w: World, e: Event, k: nat)
    requires Jobs(w) && Do(c, w, e) == Idle(w)
    ensures ActorDone(w, Step(c, w, e), k)
  {
    IdleStep(c, w, e);
    if k in w.workers {
      assert JobOk(w, k, w.workers[k]);
    }
  }

  lemma ActorOk(c: Config, w: World, e: Event, k: nat)
    requires Tables(w) && Settled(w) && Jobs(w) && Actor(e) == Some(k)
    ensures ActorDone(w, Step(c, w, e), k)
  {
    if Do(c, w, e) == Idle(w) {
      IdleDone(c, w, e, k);
    } else if e.BeginApprove? {
      ClaimActor(c, w, k, e.id, e.approver, e.ttl);
    } else {
      assert JobOk(w, k, w.workers[k]);
      ActorActs(c, w, e, k);
    }
  }

  lemma ActorActs(c: Config, w: World, e: Event, k: nat)
    requires Tables(w) && Settled(w) && k in w.workers && JobOk(w, k, w.workers[k])
    requires Actor(e) == Some(k) && !e.BeginApprove? && Do(c, w, e) != Idle(w)
    ensures ActorDone(w, Step(c, w, e), k)
  {
    match e {
      case Sign(_, now, signer) => SignActor(c, w, k, now, signer);
      case Commit(_) => CommitActor(c, w, k);
      case Grant(_) => assert k !in Step(c, w, e).workers;
    }
  }

  lemma JobsStep(c: Config, w: World, e: Event)
    requires Tables(w) && Settled(w) && Jobs(w)
    ensures Jobs(Step(c, w, e))
  {
    var w' := Step(c, w, e);
    if Actor(e).Some? {
      ActorOk(c, w, e, Actor(e).value);
    }
    forall j | j in w'.workers && Some(j) != Actor(e)
      ensures j in w.workers && w'.workers[j] == w.workers[j] && JobOk(w', j, w'.workers[j])
    {
      OthersStay(c, w, e, j);
    }
    OneEachFrom(w.workers, w'.workers, Actor(e));
  }

  lemma OneEachFrom(workers: map<nat, Worker>, workers': map<nat, Worker>, actor: Option<nat>)
    requires OneEach(workers) && (actor.Some? ==> StillOne(workers, workers', actor.value))
    requires forall j :: j in workers' && Some(j) != actor ==> j in workers && workers'[j] == workers[j]
    ensures OneEach(workers')
  {
    forall j, k | j in workers' && k in workers' && j != k ensures workers'[j].job.id != workers'[k].job.id {
      assert Some(j) != actor || Some(k) != actor;
    }
  }

  // --- The log and the tables keep agreeing ---

  /** What a record says about the world it leads to. */
  predicate Reached(w': World, r: Record) {
    match r
    case DidCreate(id, _) => Known(w', id)
    case DidRegister(id, _, res) => EndedIn(w', id, Approved, res)
    case DidClaim(job) => PastPending(w', job.id)
    case DidIssue(job, _, _) => PastPending(w', job.id)
    case DidFinish(id, s, res, _, _) => EndedIn(w', id, s, res)
    case DidGrant(job, res, _, _) => EndedIn(w', job.id, Approved, res)
    case _ => true
  }

  lemma CommitReached(w: World, k: nat)
    ensures DoCommit(w, k).1.Some? ==> Reached(DoCommit(w, k).0, DoCommit(w, k).1.value)
  {
  }

  lemma JobReached(w: World, w': World, job: Job, k: nat)
    requires Settled(w) && Moves(w, w') && k in w.workers && JobOk(w, k, w.workers[k]) && job == w.workers[k].job
    ensures PastPending(w', job.id)
    ensures w.workers[k].phase.Committed? ==> EndedIn(w', job.id, Approved, w.workers[k].phase.res)
  {
    assert PastPending(w, DidClaim(job).job.id);
    assert Known(w, job.id) && Evolves(At(w, job.id), At(w', job.id));
  }

  lemma EntryReached(c: Config, w: World, e: Event)
    requires e.Create? || e.BeginApprove? || e.Register?
    ensures Do(c, w, e).1.Some? ==> Reached(Do(c, w, e).0, Do(c, w, e).1.value)
  {
    match e {
      case Create(id, req, now) => var v := DoCreate(w, id, req, now).0;
      case BeginApprove(k, id, approver, ttl) => var v := DoClaim(w, k, id, approver, ttl).0;
      case Register(k, id, now) => var v := DoRegister(w, k, id, now).0;
    }
  }

  lemma SignReached(c: Config, w: World, k: nat, now: Time, signer: Signer)
    requires Tables(w) && Settled(w) && k in w.workers && JobOk(w, k, w.workers[k])
              && DoSign(c, w, k, now, signer).1.Some?
    ensures var (w', r) := DoSign(c, w, k, now, signer); Reached(w', r.value)
  {
    var (w', r) := DoSign(c, w, k, now, signer);
    SameTables(w, w');
    JobReached(w, w', w.workers[k].job, k);
  }

  lemma GrantReached(c: Config, w: World, k: nat)
    requires Tables(w) && Settled(w) && k in w.workers && JobOk(w, k, w.workers[k]) && DoGrant(c, w, k).1.Some?
    ensures var (w', r) := DoGrant(c, w, k); Reached(w', r.value)
  {
    var (w', r) := DoGrant(c, w, k);
    SameTables(w, w');
    JobReached(w, w', w.workers[k].job, k);
  }

  lemma EventReached(c: Config, w: World, e: Event)
    requires Tables(w) && Settled(w) && Jobs(w)
    ensures Do(c, w, e).1.Some? ==> Reached(Do(c, w, e).0, Do(c, w, e).1.value)
  {
    match e {
      case Create(_, _, _) => EntryReached(c, w, e);
      case BeginApprove(_, _, _, _) => EntryReached(c, w, e);
      case Sign(k, now, signer) => if DoSign(c, w, k, now, signer).1.Some? { SignReached(c, w, k, now, signer); }
      case Commit(k) => CommitReached(w, k);
      case Grant(k) => if DoGrant(c, w, k).1.Some? { GrantReached(c, w, k); }
      case Deny(id) => FinishFacts(w, id, Pending, Denied, Failure(DeniedByApprover), None);
      case Expire(id) => FinishFacts(w, id, Pending, Expired, Failure(Timeout), None);
      case Register(_, _, _) => EntryReached(c, w, e);
      case _ => OtherReached(c, w, e);
    }
  }

  lemma OtherReached(c: Config, w: World, e: Event)
    requires e.BeginWait? || e.Receive? || e.EndWait? || e.Cancel? || e.Find? || e.Measure? || e.Reissue? || e.Purge?
    ensures Do(c, w, e).1.Some? ==> Reached(Do(c, w, e).0, Do(c, w, e).1.value)
  {
  }

  lemma SettledFrom(w: World, w': World, e: Event, r: Option<Record>)
    requires Settled(w) && Stepped(w, w', e, r) && (r.Some? ==> Reached(w', r.value))
    ensures Settled(w')
  {
    forall x | x in w'.log
      ensures x.DidClaim? || x.DidIssue? ==> PastPending(w', x.job.id)
      ensures x.DidFinish? ==> EndedIn(w', x.id, x.state, x.res)
      ensures x.DidGrant? ==> EndedIn(w', x.job.id, Approved, x.res)
      ensures x.DidRegister? ==> EndedIn(w', x.id, Approved, x.res)
    {
      if x in w.log {
        var id := if x.DidFinish? || x.DidRegister? then x.id
                  else if x.DidClaim? || x.DidIssue? || x.DidGrant? then x.job.id else "";
        if Known(w, id) {
          assert Evolves(At(w, id), At(w', id));
        }
      }
    }
  }

  lemma FiledFrom(w: World, w': World, e: Event, r: Option<Record>)
    requires Filed(w) && Stepped(w, w', e, r) && (r.Some? ==> Reached(w', r.value))
    ensures Filed(w')
  {
    forall id | Known(w', id) ensures Origin(w'.log, id, At(w', id)) {
      if Known(w, id) {
        assert Evolves(At(w, id), At(w', id)) && Origin(w.log, id, At(w, id));
      }
    }
  }

  lemma RecordedFrom(w: World, w': World, e: Event, r: Option<Record>)
    requires Recorded(w) && Stepped(w, w', e, r)
    ensures Recorded(w')
  {
    forall id | Known(w', id) && At(w', id).result.Some?
      ensures exists x :: x in w'.log && Ends(x, id, At(w', id).result.value)
    {
      if Known(w, id) && At(w, id).result.Some? {
        assert Evolves(At(w, id), At(w', id));
        var x :| x in w.log && Ends(x, id, At(w, id).result.value);
        assert x in w'.log;
      } else {
        assert r.value in w'.log;
      }
    }
  }
}
