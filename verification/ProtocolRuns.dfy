/** The theorems about every run of the approval protocol. */
module ProtocolRuns {
  import opened Prelude
  import opened Approval
  import opened Protocol
  import opened ProtocolTables
  import opened ProtocolHistory
  import opened ProtocolSafety
  import Lease

  /** What holds in every reachable world. */
  ghost predicate Inv(w: World) {
    && Tables(w) && Filed(w) && Settled(w) && Recorded(w)
    && Jobs(w) && Backed(w) && WaitsOk(w) && Counted(w.txs, w.waits)
  }

  lemma InvStep(c: Config, w: World, e: Event)
    requires Inv(w)
    ensures Inv(Step(c, w, e))
  {
    var w1, w', r := Do(c, w, e).0, Step(c, w, e), Do(c, w, e).1;
    StepFacts(c, w, e);
    EventReached(c, w, e);
    SameEntries(w1, w');
    FiledFrom(w, w', e, r);
    SettledFrom(w, w', e, r);
    RecordedFrom(w, w', e, r);
    JobsStep(c, w, e);
    BackedStep(c, w, e);
    WaitsStep(c, w, e);
    CountedStep(c, w, e);
  }

  lemma {:induction false} RunInv(c: Config, events: seq<Event>)
    ensures Inv(Run(c, events))
  {
    if events != [] {
      RunInv(c, events[..|events| - 1]);
      InvStep(c, Run(c, events[..|events| - 1]), events[|events| - 1]);
    }
  }

  // --- Every record is justified when it is written ---

  lemma FreshId(w: World, id: string)
    requires Filed(w) && !Known(w, id)
    ensures forall x :: x in w.log ==> !Names(x, id)
  {
  }

  lemma ClaimJustified(c: Config, w: World, k: nat, id: string, approver: string, ttl: Time)
    requires Filed(w) && Settled(w) && DoClaim(w, k, id, approver, ttl).1.Some?
    ensures Justified(c, w.log, DoClaim(w, k, id, approver, ttl).1.value)
  {
    PendingUntouched(w, id);
    assert Known(w, id) && Origin(w.log, id, At(w, id));
  }

  lemma SignJustified(c: Config, w: World, k: nat, now: Time, signer: Signer)
    requires k in w.workers && JobOk(w, k, w.workers[k]) && DoSign(c, w, k, now, signer).1.Some?
    ensures Justified(c, w.log, DoSign(c, w, k, now, signer).1.value)
  {
    IssueOk(c, w.workers[k].job.req, now + w.workers[k].job.ttl, signer);
  }

  /** A transaction without a result has never been finished. */
  lemma Unfinished(w: World, id: string)
    requires Settled(w) && id in w.txs && w.txs[id].result.None?
    ensures forall x :: x in w.log ==> !FinishesTx(x, id)
  {
    forall x | x in w.log && x.DidFinish? ensures x.id != id {
      assert EndedIn(w, x.id, x.state, x.res);
    }
  }

  lemma FinishJustified(c: Config, w: World, id: string, s: State, e: Error)
    requires Tables(w) && Settled(w) && id in w.txs && w.txs[id].result.None? && Terminal(s) && !s.Approved?
    ensures Justified(c, w.log, DidFinish(id, s, Failure(e), CanSend(w.txs[id]), None))
  {
    Unfinished(w, id);
    assert Sound(w.txs[id]);
  }

  lemma ApproveJustified(c: Config, w: World, job: Job, until: Time, r: Result)
    requires Tables(w) && Settled(w) && job.id in w.txs && w.txs[job.id].result.None?
    requires r.leaseExpiresAt == 0 && DidIssue(job, until - job.ttl, r) in w.log
    ensures Justified(c, w.log, DidFinish(job.id, Approved, r.(leaseExpiresAt := until), CanSend(w.txs[job.id]),
              Some(job)))
  {
    Unfinished(w, job.id);
    assert Sound(w.txs[job.id]);
    assert r.(leaseExpiresAt := until).(leaseExpiresAt := 0) == r;
  }

  lemma CommitJustified(c: Config, w: World, k: nat)
    requires Tables(w) && Settled(w) && k in w.workers && JobOk(w, k, w.workers[k]) && DoCommit(w, k).1.Some?
    ensures Justified(c, w.log, DoCommit(w, k).1.value)
  {
    var Worker(job, Signed(until, outcome)) := w.workers[k];
    match outcome {
      case Err(e) => FinishJustified(c, w, job.id, Denied, e);
      case Ok(r) => ApproveJustified(c, w, job, until, r);
    }
  }

  lemma GrantJustified(c: Config, w: World, k: nat)
    requires k in w.workers && JobOk(w, k, w.workers[k]) && w.workers[k].phase.Committed? && DoGrant(c, w, k).1.Some?
    ensures Justified(c, w.log, DoGrant(c, w, k).1.value)
  {
  }

  lemma ReceiveJustified(c: Config, w: World, k: nat)
    requires Tables(w) && Recorded(w) && k in w.waits && WaitOk(w, w.waits[k]) && DoReceive(w, k).1.Some?
    ensures Justified(c, w.log, DoReceive(w, k).1.value)
  {
    var r := DoReceive(w, k).1.value;
    assert Known(w, r.id) && Sound(At(w, r.id));
    assert At(w, r.id).result == Some(r.res);
  }

  lemma ReissueJustified(c: Config, w: World, k: nat, now: Time, signer: Signer)
    requires k in w.reuses && ReuseOk(w, w.reuses[k]) && DoReissue(c, w, k, now, signer).1.Some?
    ensures Justified(c, w.log, DoReissue(c, w, k, now, signer).1.value)
  {
    var Measured(req, l, foundAt, measuredAt) := w.reuses[k];
    IssueOk(c, req, now + Lease.Remaining(l, measuredAt), signer);
  }

  lemma RegisterJustified(c: Config, w: World, k: nat, id: string, now: Time)
    requires Filed(w) && k in w.reuses && ReuseOk(w, w.reuses[k]) && DoRegister(w, k, id, now).1.Some?
    ensures Justified(c, w.log, DoRegister(w, k, id, now).1.value)
  {
    FreshId(w, id);
    var Minted(req, res) := w.reuses[k];
    var x :| x in w.log && ReissueOf(x, req, res);
    assert InstantRequest(x.req) == InstantRequest(req);
  }

  lemma EventJustified(c: Config, w: World, e: Event)
    requires Inv(w) && Do(c, w, e).1.Some?
    ensures Justified(c, w.log, Do(c, w, e).1.value)
  {
    match e {
      case Create(id, _, _) => FreshId(w, id);
      case BeginApprove(k, id, approver, ttl) => ClaimJustified(c, w, k, id, approver, ttl);
      case Sign(k, now, signer) => assert JobOk(w, k, w.workers[k]); SignJustified(c, w, k, now, signer);
      case Commit(k) => assert JobOk(w, k, w.workers[k]); CommitJustified(c, w, k);
      case Grant(k) => assert JobOk(w, k, w.workers[k]); GrantJustified(c, w, k);
      case Deny(id) => FinishJustified(c, w, id, Denied, DeniedByApprover);
      case Expire(id) => FinishJustified(c, w, id, Expired, Timeout);
      case Receive(k) => assert WaitOk(w, w.waits[k]); ReceiveJustified(c, w, k);
      case Reissue(k, now, signer) => assert ReuseOk(w, w.reuses[k]); ReissueJustified(c, w, k, now, signer);
      case Register(k, id, now) => assert ReuseOk(w, w.reuses[k]); RegisterJustified(c, w, k, id, now);
      case _ => NoRecord(c, w, e); assert false;
    }
  }

  lemma NoRecord(c: Config, w: World, e: Event)
    requires e.BeginWait? || e.EndWait? || e.Cancel? || e.Find? || e.Measure? || e.Purge?
    ensures Do(c, w, e).1.None?
  {
  }

  /** In every run, everything that happened was justified by what had happened before. */
  lemma {:induction false} RunJustified(c: Config, events: seq<Event>, i: nat)
    requires i < |Run(c, events).log|
    ensures Justified(c, Run(c, events).log[..i], Run(c, events).log[i])
  {
    var init := events[..|events| - 1];
    var w, log := Run(c, init), Run(c, events).log;
    if i < |w.log| {
      RunJustified(c, init, i);
      assert log[..i] == w.log[..i];
    } else {
      RunInv(c, init);
      EventJustified(c, w, events[|events| - 1]);
      assert log[..i] == w.log;
    }
  }

  // --- Results ---

  function Log(c: Config, events: seq<Event>): seq<Record> {
    Run(c, events).log
  }

  /** In every run a transaction is created, claimed, signed for, finished and granted a lease at
      most once. */
  lemma OncePerTransaction(c: Config, events: seq<Event>, i: nat, j: nat, id: string)
    requires i < j < |Log(c, events)|
    ensures var a, b := Log(c, events)[i], Log(c, events)[j];
            && !(Names(a, id) && Names(b, id))
            && !(ClaimsTx(a, id) && ClaimsTx(b, id))
            && !(IssuesTx(a, id) && IssuesTx(b, id))
            && !(FinishesTx(a, id) && FinishesTx(b, id))
            && !(GrantsTx(a, id) && GrantsTx(b, id))
  {
    var log := Log(c, events);
    RunJustified(c, events, j);
    assert log[i] == log[..j][i];
    assert log[i] in log[..j];
  }

  lemma Locate(log: seq<Record>, n: nat, r: Record) returns (i: nat)
    requires n <= |log| && r in log[..n]
    ensures i < n && log[i] == r
  {
    i :| 0 <= i < n && log[..n][i] == r;
  }

  /** A committed approval goes back to one issuance and one claim of the same approver, and its
      lease would run from the moment of signing for the approved time. */
  lemma ApprovalChain(c: Config, events: seq<Event>, d: nat) returns (a: nat, b: nat)
    requires d < |Log(c, events)| && Log(c, events)[d].DidFinish? && Log(c, events)[d].state.Approved?
    ensures a < b < d && Log(c, events)[d].cause.Some?
    ensures var log, job, res := Log(c, events), Log(c, events)[d].cause.value, Log(c, events)[d].res;
            && job.id == log[d].id && job.ttl > 0 && log[a] == DidClaim(job)
            && log[b] == DidIssue(job, res.leaseExpiresAt - job.ttl, res.(leaseExpiresAt := 0))
            && res.err.None? && res.expiresAt == res.leaseExpiresAt
  {
    var log := Log(c, events);
    var job, res := log[d].cause, log[d].res;
    RunJustified(c, events, d);
    b := Locate(log, d, DidIssue(job.value, res.leaseExpiresAt - job.value.ttl, res.(leaseExpiresAt := 0)));
    RunJustified(c, events, b);
    a := Locate(log, b, DidClaim(job.value));
    RunJustified(c, events, a);
  }

  /** A lease is only ever put after the commit of an approval that allows one, under that
      request's six-field key and its approver. */
  lemma GrantChain(c: Config, events: seq<Event>, g: nat) returns (d: nat)
    requires g < |Log(c, events)| && Log(c, events)[g].DidGrant?
    ensures d < g
    ensures var log, job := Log(c, events), Log(c, events)[g].job;
            && log[d] == DidFinish(job.id, Approved, log[g].res, true, Some(job))
            && log[g].key == Lease.FullKey(LookupOf(job.req), job.approver)
            && log[g].until == log[g].res.leaseExpiresAt
            && c.leases && job.approver != "" && job.req.clientCertFP != "" && !job.req.disableLease
  {
    var log := Log(c, events);
    RunJustified(c, events, g);
    d := Locate(log, g, DidFinish(log[g].job.id, Approved, log[g].res, true, Some(log[g].job)));
  }

  /** No lease comes of a transaction that was denied, expired or abandoned while being signed. */
  lemma NoLeaseWithoutApproval(c: Config, events: seq<Event>, id: string)
    requires Known(Run(c, events), id) && !At(Run(c, events), id).tx.state.Approved?
    ensures forall x :: x in Log(c, events) ==> !GrantsTx(x, id)
  {
    RunInv(c, events);
    forall x | x in Log(c, events) && x.DidGrant? ensures x.job.id != id {
      assert EndedIn(Run(c, events), x.job.id, Approved, x.res);
    }
  }

  /** Every lease in the store, at any time, is such a grant with its expiry unchanged. */
  lemma LeasesAreGrants(c: Config, events: seq<Event>, f: Lease.FullKey) returns (g: nat)
    requires f in Run(c, events).leases
    ensures g < |Log(c, events)| && GrantOf(Log(c, events)[g], f, Run(c, events).leases[f].expiresAt)
  {
    RunInv(c, events);
    var log := Log(c, events);
    assert HasGrant(log, f, Run(c, events).leases[f].expiresAt);
    var x :| x in log && GrantOf(x, f, Run(c, events).leases[f].expiresAt);
    g :| 0 <= g < |log| && log[g] == x;
  }

  /** Nothing but the grant of a commit puts or changes a lease; reusing one leaves it as it is. */
  lemma OnlyGrantsChangeLeases(c: Config, w: World, e: Event, f: Lease.FullKey)
    requires f in Step(c, w, e).leases && !(f in w.leases && w.leases[f] == Step(c, w, e).leases[f])
    ensures e.Grant? && Step(c, w, e).log != w.log
              && GrantOf(Step(c, w, e).log[|w.log|], f, Step(c, w, e).leases[f].expiresAt)
  {
    ReusesFrame(c, w, e);
    match e {
      case Grant(k) => var v := DoGrant(c, w, k).0;
      case Purge(now) => var v := DoPurge(w, now).0;
      case _ =>
    }
  }

  /** A reissued credential goes back to a grant of the same key and expiry, found before that
      expiry; it outlives the lease by no more than the delay between its two clock readings. */
  lemma ReissueChain(c: Config, events: seq<Event>, i: nat) returns (g: nat)
    requires i < |Log(c, events)| && Log(c, events)[i].DidReissue?
    ensures g < i
    ensures var log, r := Log(c, events), Log(c, events)[i];
            && GrantOf(log[g], Lease.FullKey(LookupOf(r.req), r.lease.approver), r.lease.expiresAt)
            && !r.req.disableLease && r.foundAt <= r.lease.expiresAt
            && r.res.leaseExpiresAt == r.lease.expiresAt
            && r.res.expiresAt - r.lease.expiresAt == r.issuedAt - r.measuredAt
            && r.foundAt <= r.measuredAt <= r.issuedAt
  {
    var log := Log(c, events);
    RunJustified(c, events, i);
    var r := log[i];
    var x :| x in log[..i] && GrantOf(x, Lease.FullKey(LookupOf(r.req), r.lease.approver), r.lease.expiresAt);
    g := Locate(log, i, x);
  }

  /** What a waiter receives is the one result of its transaction, then and ever after. */
  lemma ReceiversAgree(c: Config, events: seq<Event>, i: nat)
    requires i < |Log(c, events)| && Log(c, events)[i].DidReceive?
    ensures EndedWith(Run(c, events), Log(c, events)[i].id, Log(c, events)[i].res)
  {
    var log := Log(c, events);
    RunJustified(c, events, i);
    RunInv(c, events);
    var x :| x in log[..i] && Ends(x, log[i].id, log[i].res);
    assert x in log;
  }

  /** Every finish puts its result in the channel: none is dropped, none meets a closed channel. */
  lemma EveryResultIsSent(c: Config, events: seq<Event>, i: nat)
    requires i < |Log(c, events)| && Log(c, events)[i].DidFinish?
    ensures Log(c, events)[i].sent
  {
    RunJustified(c, events, i);
  }

  /** The places in the log that a received credential goes back to. */
  datatype Provenance =
    | FromApproval(claim: nat, issue: nat, finish: nat)
    | FromLease(claim: nat, issue: nat, finish: nat, grant: nat, reissue: nat, register: nat)

  /** An approval from claim to commit: one approver, one transaction, and the committed result is
      the issued one with the end of the lease added. */
  predicate Approves(log: seq<Record>, a: nat, b: nat, d: nat) {
    && a < b < d < |log|
    && log[d].DidFinish? && log[d].state.Approved? && log[d].cause.Some? && log[d].cause.value.id == log[d].id
    && log[a] == DidClaim(log[d].cause.value)
    && log[b].DidIssue? && log[b].job == log[d].cause.value && log[b].res == log[d].res.(leaseExpiresAt := 0)
    && log[d].res.expiresAt == log[d].res.leaseExpiresAt
  }

  /** Where a received credential came from. */
  predicate ComesFrom(c: Config, log: seq<Record>, i: nat, p: Provenance)
    requires i < |log| && log[i].DidReceive?
  {
    match p
    case FromApproval(a, b, d) =>
      && Approves(log, a, b, d) && d < i
      && log[d].id == log[i].id && log[d].res == log[i].res
    case FromLease(a, b, d, g, u, n) =>
      && Approves(log, a, b, d) && d < g < u < n < i
      && log[g].DidGrant? && log[d].cause == Some(log[g].job) && log[d].res == log[g].res
      && log[u].DidReissue? && log[u].foundAt <= log[u].lease.expiresAt
      && SameSession(log[g].job.req, log[u].req) && log[g].job.approver == log[u].lease.approver
      && c.leases && !log[g].job.req.disableLease && log[g].job.req.clientCertFP != "" && log[g].job.approver != ""
      && !log[u].req.disableLease
      && GrantOf(log[g], Lease.FullKey(LookupOf(log[u].req), log[u].lease.approver), log[u].lease.expiresAt)
      && log[i].res.expiresAt - log[g].until == log[u].issuedAt - log[u].measuredAt
      && log[n].DidRegister? && log[n].id == log[i].id
      && InstantRequest(log[u].req) == log[n].req && log[u].res == log[n].res == log[i].res
  }

  lemma CommittedApproves(c: Config, events: seq<Event>, d: nat) returns (a: nat, b: nat)
    requires d < |Log(c, events)| && Log(c, events)[d].DidFinish? && Log(c, events)[d].state.Approved?
    ensures Approves(Log(c, events), a, b, d)
  {
    a, b := ApprovalChain(c, events, d);
  }

  lemma LeasedProvenance(c: Config, events: seq<Event>, i: nat, n: nat) returns (p: Provenance)
    requires n < i < |Log(c, events)| && Log(c, events)[i].DidReceive? && Log(c, events)[n].DidRegister?
    requires Ends(Log(c, events)[n], Log(c, events)[i].id, Log(c, events)[i].res)
    ensures ComesFrom(c, Log(c, events), i, p)
  {
    var log := Log(c, events);
    RunJustified(c, events, n);
    var x :| x in log[..n] && x.DidReissue? && InstantRequest(x.req) == log[n].req && x.res == log[n].res;
    var u := Locate(log, n, x);
    var g := ReissueChain(c, events, u);
    var d := GrantChain(c, events, g);
    var a, b := CommittedApproves(c, events, d);
    LookupExact(log[g].job.req, log[u].req);
    p := FromLease(a, b, d, g, u, n);
  }

  /** Every credential any client ever receives is the single issuance of a transaction that an
      approver claimed and committed, or was minted from a lease, found unexpired, that such an
      approval granted for the same lookup key. */
  lemma CredentialProvenance(c: Config, events: seq<Event>, i: nat) returns (p: Provenance)
    requires i < |Log(c, events)| && Log(c, events)[i].DidReceive? && Log(c, events)[i].res.err.None?
    ensures ComesFrom(c, Log(c, events), i, p)
  {
    var log := Log(c, events);
    RunJustified(c, events, i);
    var x :| x in log[..i] && Ends(x, log[i].id, log[i].res);
    var d := Locate(log, i, x);
    if x.DidRegister? {
      p := LeasedProvenance(c, events, i, d);
    } else {
      RunJustified(c, events, d);
      var a, b := CommittedApproves(c, events, d);
      p := FromApproval(a, b, d);
    }
  }

  /** While a transaction has no result, its waiter counter is the number of its waiters. */
  lemma WaitersAreCounted(c: Config, events: seq<Event>, id: string)
    requires id in Run(c, events).txs && Run(c, events).txs[id].result.None?
    ensures Run(c, events).txs[id].waiters == |WaitersOn(Run(c, events).waits, id)|
  {
    RunInv(c, events);
  }

  /** A cancelled wait deletes an unresolved transaction exactly when no other waiter is left. */
  lemma LastWaiterDeletes(c: Config, events: seq<Event>, k: nat)
    requires var w := Run(c, events);
             k in w.waits && w.waits[k].OnChannel? && w.waits[k].id in w.txs && w.txs[w.waits[k].id].result.None?
    ensures var w := Run(c, events);
            w.waits[k].id !in Step(c, w, Cancel(k)).txs <==> WaitersOn(w.waits, w.waits[k].id) == {k}
  {
    var w := Run(c, events);
    var id := w.waits[k].id;
    RunInv(c, events);
    var others := WaitersOn(w.waits, id) - {k};
    assert |WaitersOn(w.waits, id)| == |others| + 1;
    assert w.txs[id].waiters == |others| + 1;
    assert others == {} <==> WaitersOn(w.waits, id) == {k};
  }

  /** Every record was made by one event of the run. */
  lemma {:induction false} MadeBy(c: Config, events: seq<Event>, i: nat) returns (n: nat)
    requires i < |Log(c, events)|
    ensures n < |events| && Do(c, Run(c, events[..n]), events[n]).1 == Some(Log(c, events)[i])
    ensures Log(c, events[..n]) == Log(c, events)[..i]
  {
    var init := events[..|events| - 1];
    if i < |Log(c, init)| {
      n := MadeBy(c, init, i);
      assert init[..n] == events[..n];
    } else {
      n := |events| - 1;
    }
  }
}
