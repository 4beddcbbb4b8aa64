/** The first decision about a transaction stands, in any run of the protocol. */
module DecisionRuns {
  import opened Prelude
  import opened Approval
  import opened Protocol
  import opened ProtocolTables
  import opened ProtocolHistory
  import opened ProtocolRuns

  /** An approver's yes or no, or the timer. */
  predicate Decides(e: Event, id: string) {
    (e.BeginApprove? || e.Deny? || e.Expire?) && e.id == id
  }

  /** Event m is a decision about id that found it pending. */
  ghost predicate Decided(c: Config, events: seq<Event>, m: nat, id: string) {
    m < |events| && Decides(events[m], id) && Do(c, Run(c, events[..m]), events[m]).1.Some?
  }

  lemma DecisionFrom(c: Config, w: World, e: Event, id: string)
    requires Decides(e, id) && Do(c, w, e).1.Some?
    ensures InState(w.txs, id, Pending)
    ensures id in Step(c, w, e).txs && !Step(c, w, e).txs[id].tx.state.Pending?
    ensures e.Deny? ==> Step(c, w, e).txs[id] == Finish(w.txs[id], Denied, Failure(DeniedByApprover))
    ensures e.Expire? ==> Step(c, w, e).txs[id] == Finish(w.txs[id], Expired, Failure(Timeout))
  {
  }

  lemma SettledTable(c: Config, w: World, e: Event, id: string)
    requires Decides(e, id) && !InState(w.txs, id, Pending)
    ensures Do(c, w, e) == Idle(w)
  {
  }

  lemma AfterDecision(c: Config, events: seq<Event>, m: nat, n: nat, id: string)
    requires Decided(c, events, m, id) && m < n <= |events|
    ensures Known(Run(c, events[..n]), id) && !At(Run(c, events[..n]), id).tx.state.Pending?
  {
    assert events[..m + 1][..m] == events[..m];
    DecisionFrom(c, Run(c, events[..m]), events[m], id);
    assert events[..n][..m + 1] == events[..m + 1];
    TransactionsOnlyAdvance(c, events[..n], m + 1, id);
    RunTables(c, events[..m + 1]);
  }

  /** Once decided, whatever comes later, at any point of the run, changes nothing at all. */
  lemma LateDecision(c: Config, events: seq<Event>, m: nat, n: nat, e: Event, id: string)
    requires Decided(c, events, m, id) && m < n <= |events| && Decides(e, id)
    ensures Do(c, Run(c, events[..n]), e) == Idle(Run(c, events[..n]))
  {
    AfterDecision(c, events, m, n, id);
    SettledTable(c, Run(c, events[..n]), e, id);
  }

  /** So there is at most one. */
  lemma OneDecision(c: Config, events: seq<Event>, m: nat, n: nat, id: string)
    requires Decided(c, events, m, id) && Decided(c, events, n, id)
    ensures m == n
  {
    if m < n {
      LateDecision(c, events, m, n, events[n], id);
    } else if n < m {
      LateDecision(c, events, n, m, events[m], id);
    }
  }

  lemma ClaimEvent(c: Config, w: World, e: Event)
    requires Do(c, w, e).1.Some? && Do(c, w, e).1.value.DidClaim?
    ensures Decides(e, Do(c, w, e).1.value.job.id) && e.BeginApprove? && e.k == Do(c, w, e).1.value.job.k
  {
  }

  /** Every claim in the log is a decision of the run. */
  lemma ClaimDecides(c: Config, events: seq<Event>, i: nat) returns (m: nat)
    requires i < |Log(c, events)| && Log(c, events)[i].DidClaim?
    ensures Decided(c, events, m, Log(c, events)[i].job.id)
    ensures events[m].BeginApprove? && events[m].k == Log(c, events)[i].job.k
  {
    m := MadeBy(c, events, i);
    ClaimEvent(c, Run(c, events[..m]), events[m]);
  }

  /** A record about an approval goes back to its claim. */
  lemma ClaimBehind(c: Config, events: seq<Event>, i: nat) returns (a: nat)
    requires i < |Log(c, events)| && RecordsJob(Log(c, events)[i])
    ensures a < |Log(c, events)| && Log(c, events)[a] == DidClaim(Log(c, events)[i].job)
  {
    var log := Log(c, events);
    if log[i].DidClaim? {
      a := i;
    } else if log[i].DidIssue? {
      RunJustified(c, events, i);
      a := Locate(log, i, DidClaim(log[i].job));
    } else {
      var d := GrantChain(c, events, i);
      var b;
      a, b := ApprovalChain(c, events, d);
    }
  }

  /** A denial or a timeout that finds a transaction pending is its end: that is its result ever
      after, and in the whole run nobody claims it, signs for it or is granted a lease on it. */
  lemma RefusalStands(c: Config, events: seq<Event>, m: nat, id: string)
    requires Decided(c, events, m, id) && !events[m].BeginApprove?
    ensures EndedIn(Run(c, events), id, if events[m].Deny? then Denied else Expired,
                    Failure(if events[m].Deny? then DeniedByApprover else Timeout))
    ensures forall x :: x in Log(c, events) && RecordsJob(x) ==> x.job.id != id
  {
    assert events[..m + 1][..m] == events[..m];
    DecisionFrom(c, Run(c, events[..m]), events[m], id);
    TransactionsOnlyAdvance(c, events, m + 1, id);
    var log := Log(c, events);
    forall x | x in log && RecordsJob(x) ensures x.job.id != id {
      var i := Locate(log, |log|, x);
      var a := ClaimBehind(c, events, i);
      var n := ClaimDecides(c, events, a);
      if x.job.id == id {
        OneDecision(c, events, m, n, id);
      }
    }
  }

  lemma FinishEvent(c: Config, w: World, e: Event)
    requires Do(c, w, e).1.Some? && Do(c, w, e).1.value.DidFinish?
    ensures var id := Do(c, w, e).1.value.id;
            || (Decides(e, id) && !e.BeginApprove?)
            || (e.Commit? && e.k in w.workers && w.workers[e.k].job.id == id)
  {
  }

  /** A claimed transaction is finished, if at all, by the commit of the approver that claimed it. */
  lemma ClaimStands(c: Config, events: seq<Event>, i: nat, d: nat) returns (n: nat)
    requires i < |Log(c, events)| && Log(c, events)[i].DidClaim?
    requires d < |Log(c, events)| && FinishesTx(Log(c, events)[d], Log(c, events)[i].job.id)
    ensures n < |events| && events[n] == Commit(Log(c, events)[i].job.k)
    ensures Do(c, Run(c, events[..n]), events[n]).1 == Some(Log(c, events)[d])
  {
    var log := Log(c, events);
    var job := log[i].job;
    n := MadeBy(c, events, d);
    FinishEvent(c, Run(c, events[..n]), events[n]);
    assert log[i] in log;
    if Decides(events[n], job.id) {
      RefusalStands(c, events, n, job.id);
    } else {
      CommitterClaimed(c, events, n, i);
    }
  }

  lemma OneClaim(c: Config, events: seq<Event>, i: nat, j: nat)
    requires i < |Log(c, events)| && Log(c, events)[i].DidClaim?
    requires j < |Log(c, events)| && ClaimsTx(Log(c, events)[j], Log(c, events)[i].job.id)
    ensures i == j
  {
    if i < j {
      OncePerTransaction(c, events, i, j, Log(c, events)[i].job.id);
    } else if j < i {
      OncePerTransaction(c, events, j, i, Log(c, events)[i].job.id);
    }
  }

  lemma WorkerClaimed(c: Config, events: seq<Event>, k: nat)
    requires k in Run(c, events).workers
    ensures Run(c, events).workers[k].job.k == k && DidClaim(Run(c, events).workers[k].job) in Log(c, events)
  {
    RunInv(c, events);
    assert JobOk(Run(c, events), k, Run(c, events).workers[k]);
  }

  lemma CommitterClaimed(c: Config, events: seq<Event>, n: nat, i: nat)
    requires i < |Log(c, events)| && Log(c, events)[i].DidClaim?
    requires n < |events| && events[n].Commit? && events[n].k in Run(c, events[..n]).workers
    requires Run(c, events[..n]).workers[events[n].k].job.id == Log(c, events)[i].job.id
    ensures events[n].k == Log(c, events)[i].job.k
  {
    var k, log := events[n].k, Log(c, events);
    var job := Run(c, events[..n]).workers[k].job;
    WorkerClaimed(c, events[..n], k);
    LogGrows(c, events, n);
    var j := Locate(log, |log|, DidClaim(job));
    OneClaim(c, events, i, j);
  }

  lemma {:induction false} LogGrows(c: Config, events: seq<Event>, n: nat)
    requires n <= |events|
    ensures Log(c, events[..n]) <= Log(c, events)
  {
    if n == |events| {
      assert events[..n] == events;
    } else {
      assert events[..|events| - 1][..n] == events[..n];
      LogGrows(c, events[..|events| - 1], n);
    }
  }
}
