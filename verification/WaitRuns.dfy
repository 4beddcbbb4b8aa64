/** From the wait handler to the client: who receives what in any run of the protocol. */
module WaitRuns {
  import opened Prelude
  import opened Approval
  import opened Protocol
  import opened ProtocolTables
  import opened ProtocolHistory
  import opened ProtocolSafety
  import opened ProtocolRuns
  import opened SignRuns
  import H = SignHandler

  // --- The handler's check ---

  /** A transaction that carries a client certificate is for that client alone. */
  predicate MayWait(req: Request, client: string) {
    req.clientCertFP == "" || client == req.clientCertFP
  }

  /** handleWait in front of Wait: a transaction that is not there is let through to be not found. */
  predicate Passes(t: Table, id: string, client: string) {
    id in t ==> MayWait(t[id].tx.req, client)
  }

  /** Every wait of the run came through the handler: client says who made the call that event n
      belongs to, check how far the run had come when the handler looked. */
  ghost predicate ThroughWaitHandler(c: Config, events: seq<Event>, client: nat -> string, check: nat -> nat) {
    forall n :: 0 <= n < |events| && events[n].BeginWait? ==>
                  check(n) <= n && Passes(Run(c, events[..check(n)]).txs, events[n].id, client(n))
  }

  // --- A receipt belongs to one call ---

  /** The call that event n began is still waiting for id when the run has come to m. */
  ghost predicate Waiting(c: Config, events: seq<Event>, k: nat, id: string, n: nat, m: nat)
    requires m <= |events|
  {
    forall j :: n < j <= m ==> k in Run(c, events[..j]).waits && Run(c, events[..j]).waits[k].id == id
  }

  ghost predicate Began(c: Config, events: seq<Event>, k: nat, id: string, n: nat) {
    && n < |events| && events[n] == BeginWait(k, id)
    && id in Run(c, events[..n]).txs && k !in Run(c, events[..n]).waits
    && Waiting(c, events, k, id, n, |events|)
  }

  /** A waiter that is there after a step was there before it, for the same transaction, or the step
      began its wait. */
  predicate SameWait(k: nat, waits: map<nat, Wait>, waits': map<nat, Wait>) {
    k in waits' ==> k in waits && waits'[k].id == waits[k].id
  }

  lemma NewWait(w: World, k: nat, id: string)
    ensures var waits := DoWait(w, k, id).0.waits;
            k in waits ==> SameWait(k, w.waits, waits) || (k !in w.waits && waits[k].id == id && id in w.txs)
  {
  }

  lemma OwnWait(w: World, k: nat)
    ensures SameWait(k, w.waits, DoReceive(w, k).0.waits)
    ensures SameWait(k, w.waits, DoEndWait(w, k).0.waits) && SameWait(k, w.waits, DoCancel(w, k).0.waits)
  {
  }

  lemma WaiterSource(c: Config, w: World, e: Event, k: nat)
    requires k in Step(c, w, e).waits
    ensures var id := Step(c, w, e).waits[k].id;
            || (k in w.waits && w.waits[k].id == id)
            || (k !in w.waits && e == BeginWait(k, id) && id in w.txs)
  {
    WaitsFrame(c, w, e);
    if Waiter(e) == Some(k) {
      match e {
        case BeginWait(_, id) => NewWait(w, k, id);
        case Receive(_) => OwnWait(w, k);
        case EndWait(_) => OwnWait(w, k);
        case Cancel(_) => OwnWait(w, k);
      }
    }
  }

  lemma StillWaiting(c: Config, events: seq<Event>, k: nat, id: string, n: nat)
    requires events != [] && Began(c, events[..|events| - 1], k, id, n)
    requires k in Run(c, events).waits && Run(c, events).waits[k].id == id
    ensures Began(c, events, k, id, n)
  {
    var init := events[..|events| - 1];
    assert init[..n] == events[..n];
    forall j | n < j <= |events| ensures k in Run(c, events[..j]).waits && Run(c, events[..j]).waits[k].id == id {
      if j < |events| {
        assert init[..j] == events[..j];
      } else {
        assert events[..j] == events;
      }
    }
  }

  lemma {:induction false} WaitBegan(c: Config, events: seq<Event>, k: nat) returns (n: nat)
    requires k in Run(c, events).waits
    ensures Began(c, events, k, Run(c, events).waits[k].id, n)
  {
    var init, e := events[..|events| - 1], events[|events| - 1];
    var w, id := Run(c, init), Run(c, events).waits[k].id;
    WaiterSource(c, w, e, k);
    if k in w.waits {
      n := WaitBegan(c, init, k);
      StillWaiting(c, events, k, id, n);
    } else {
      n := |events| - 1;
      JustBegan(c, events, k, id);
    }
  }

  lemma JustBegan(c: Config, events: seq<Event>, k: nat, id: string)
    requires events != [] && events[|events| - 1] == BeginWait(k, id)
    requires id in Run(c, events[..|events| - 1]).txs && k !in Run(c, events[..|events| - 1]).waits
    requires k in Run(c, events).waits && Run(c, events).waits[k].id == id
    ensures Began(c, events, k, id, |events| - 1)
  {
    assert events[..|events|] == events;
  }

  lemma ReceiptSource(c: Config, w: World, e: Event)
    requires Do(c, w, e).1.Some? && Do(c, w, e).1.value.DidReceive?
    ensures var r := Do(c, w, e).1.value;
            e == Receive(r.k) && r.k in w.waits && w.waits[r.k].id == r.id
  {
    match e {
      case Receive(k) => var v := DoReceive(w, k).0;
      case _ =>
    }
  }

  /** Every receipt is that of a call which began before it and has been waiting since. */
  lemma ReceiptCall(c: Config, events: seq<Event>, i: nat) returns (n: nat, m: nat)
    requires i < |Log(c, events)| && Log(c, events)[i].DidReceive?
    ensures n < m < |events| && events[m] == Receive(Log(c, events)[i].k)
    ensures Do(c, Run(c, events[..m]), events[m]).1 == Some(Log(c, events)[i])
    ensures Began(c, events[..m], Log(c, events)[i].k, Log(c, events)[i].id, n)
  {
    m := MadeBy(c, events, i);
    ReceiptSource(c, Run(c, events[..m]), events[m]);
    n := WaitBegan(c, events[..m], Log(c, events)[i].k);
  }

  // --- Deleted transactions stay deleted, and requests do not change ---

  lemma WaiterKeepsGone(w: World, k: nat, id: string, i: string)
    requires i in w.gone
    ensures i in DoWait(w, k, id).0.gone && i in DoReceive(w, k).0.gone
    ensures i in DoEndWait(w, k).0.gone && i in DoCancel(w, k).0.gone
  {
  }

  lemma CommitKeepsGone(w: World, k: nat, id: string)
    requires id in w.gone
    ensures id in DoCommit(w, k).0.gone
  {
  }

  lemma GoneStep(c: Config, w: World, e: Event, id: string)
    requires id in w.gone
    ensures id in Do(c, w, e).0.gone
  {
    if Outside(e) {
      OutsideKeeps(c, w, e);
    } else {
      match e {
        case Commit(k) => CommitKeepsGone(w, k, id);
        case BeginWait(k, i) => WaiterKeepsGone(w, k, i, id);
        case Receive(k) => WaiterKeepsGone(w, k, "", id);
        case EndWait(k) => WaiterKeepsGone(w, k, "", id);
        case Cancel(k) => WaiterKeepsGone(w, k, "", id);
        case _ =>
      }
    }
  }

  lemma {:induction false} GoneStays(c: Config, events: seq<Event>, n: nat, id: string)
    requires n <= |events| && id in Run(c, events[..n]).gone
    ensures id in Run(c, events).gone && id !in Run(c, events).txs
  {
    if n == |events| {
      assert events[..n] == events;
    } else {
      var init := events[..|events| - 1];
      assert init[..n] == events[..n];
      GoneStays(c, init, n, id);
      RunTables(c, init);
      GoneStep(c, Run(c, init), events[|events| - 1], id);
    }
    RunTables(c, events);
  }

  // --- Results ---

  /** Whoever passes the handler's look at q may wait on a transaction that is there at n. */
  ghost predicate Suffices(c: Config, events: seq<Event>, q: nat, id: string, req: Request)
    requires q <= |events|
  {
    forall client :: Passes(Run(c, events[..q]).txs, id, client) ==> MayWait(req, client)
  }

  lemma LateCheck(c: Config, events: seq<Event>, q: nat, n: nat, id: string)
    requires q <= n <= |events| && id in Run(c, events[..n]).txs && Known(Run(c, events[..q]), id)
    ensures id in Run(c, events[..q]).txs
    ensures Run(c, events[..q]).txs[id].tx.req == Run(c, events[..n]).txs[id].tx.req
  {
    assert events[..n][..q] == events[..q];
    if id in Run(c, events[..q]).gone {
      GoneStays(c, events[..n], q, id);
      assert false;
    }
    TransactionsOnlyAdvance(c, events[..n], q, id);
  }

  /** The check holds strangers back from a transaction exactly when it is made after the transaction
      was created, or when the transaction carries no certificate and has no strangers. */
  lemma CheckSufficesIff(c: Config, events: seq<Event>, q: nat, n: nat, id: string)
    requires q <= n <= |events| && id in Run(c, events[..n]).txs
    ensures var req := Run(c, events[..n]).txs[id].tx.req;
            Suffices(c, events, q, id, req) <==> Known(Run(c, events[..q]), id) || req.clientCertFP == ""
  {
    var req := Run(c, events[..n]).txs[id].tx.req;
    if Known(Run(c, events[..q]), id) {
      LateCheck(c, events, q, n, id);
    } else {
      var stranger := req.clientCertFP + "x";
      assert Passes(Run(c, events[..q]).txs, id, stranger);
    }
  }

  /** A transaction is received only by the client its request came from, as long as the handler
      looked after it was created; a client learns the id no sooner. */
  lemma ReceivedByItsClient(c: Config, events: seq<Event>, client: nat -> string, check: nat -> nat, i: nat)
    returns (n: nat, m: nat)
    requires ThroughWaitHandler(c, events, client, check)
    requires i < |Log(c, events)| && Log(c, events)[i].DidReceive?
    ensures n < m < |events| && events[m] == Receive(Log(c, events)[i].k)
    ensures Began(c, events[..m], Log(c, events)[i].k, Log(c, events)[i].id, n)
    ensures Known(Run(c, events), Log(c, events)[i].id)
    ensures var fp := At(Run(c, events), Log(c, events)[i].id).tx.req.clientCertFP;
            Known(Run(c, events[..check(n)]), Log(c, events)[i].id) ==> fp == "" || client(n) == fp
  {
    var id := Log(c, events)[i].id;
    ReceiversAgree(c, events, i);
    n, m := ReceiptCall(c, events, i);
    assert events[..m][n] == events[n] && events[..m][..n] == events[..n];
    CheckSufficesIff(c, events, check(n), n, id);
    TransactionsOnlyAdvance(c, events, n, id);
  }

  lemma OneName(c: Config, events: seq<Event>, i: nat, j: nat, id: string)
    requires i < |Log(c, events)| && j < |Log(c, events)|
    requires Names(Log(c, events)[i], id) && Names(Log(c, events)[j], id)
    ensures i == j
  {
    if i < j {
      OncePerTransaction(c, events, i, j, id);
    } else if j < i {
      OncePerTransaction(c, events, j, i, id);
    }
  }

  lemma KnownOrigin(c: Config, events: seq<Event>, i: nat) returns (j: nat)
    requires i < |Log(c, events)| && (Log(c, events)[i].DidCreate? || Log(c, events)[i].DidRegister?)
    ensures var id := Log(c, events)[i].id;
            && Known(Run(c, events), id) && j < |Log(c, events)| && Names(Log(c, events)[j], id)
            && Log(c, events)[j].req == At(Run(c, events), id).tx.req
  {
    var log := Log(c, events);
    var id := log[i].id;
    RunInv(c, events);
    assert log[i] in log;
    var e := At(Run(c, events), id);
    assert Origin(log, id, e);
    if DidCreate(id, e.tx.req) in log {
      j := Locate(log, |log|, DidCreate(id, e.tx.req));
    } else {
      j := Locate(log, |log|, DidRegister(id, e.tx.req, e.result.value));
    }
  }

  /** The record that names a transaction says what its request is, in every later world. */
  lemma NamedRequest(c: Config, events: seq<Event>, i: nat)
    requires i < |Log(c, events)| && (Log(c, events)[i].DidCreate? || Log(c, events)[i].DidRegister?)
    ensures var r := Log(c, events)[i];
            Known(Run(c, events), r.id) && At(Run(c, events), r.id).tx.req == r.req
  {
    var j := KnownOrigin(c, events, i);
    OneName(c, events, i, j, Log(c, events)[i].id);
  }

  /** The request a credential was approved for, or reused a lease for. */
  function Behind(c: Config, log: seq<Record>, i: nat, p: Provenance): Request
    requires i < |log| && log[i].DidReceive? && ComesFrom(c, log, i, p)
  {
    match p
    case FromApproval(_, _, d) => log[d].cause.value.req
    case FromLease(_, _, _, _, u, _) => log[u].req
  }

  lemma BehindIsNamed(c: Config, events: seq<Event>, i: nat, p: Provenance)
    requires i < |Log(c, events)| && Log(c, events)[i].DidReceive? && ComesFrom(c, Log(c, events), i, p)
    ensures var log, w := Log(c, events), Run(c, events);
            && Known(w, log[i].id)
            && At(w, log[i].id).tx.req.clientCertFP == Behind(c, log, i, p).clientCertFP
  {
    var log := Log(c, events);
    match p {
      case FromApproval(a, _, _) =>
        RunJustified(c, events, a);
        var n := Locate(log, a, DidCreate(log[a].job.id, log[a].job.req));
        NamedRequest(c, events, n);
      case FromLease(_, _, _, _, _, n) => NamedRequest(c, events, n);
    }
  }

  /** Every credential goes to the client that asked for it: the one whose request was approved, or
      whose request reused a lease that an approval granted to the same client. */
  lemma DeliveredToItsClient(c: Config, events: seq<Event>, client: nat -> string, check: nat -> nat, i: nat)
    returns (p: Provenance, n: nat)
    requires ThroughWaitHandler(c, events, client, check)
    requires i < |Log(c, events)| && Log(c, events)[i].DidReceive? && Log(c, events)[i].res.err.None?
    ensures ComesFrom(c, Log(c, events), i, p)
    ensures n < |events| && events[n] == BeginWait(Log(c, events)[i].k, Log(c, events)[i].id)
    ensures var fp := Behind(c, Log(c, events), i, p).clientCertFP;
            Known(Run(c, events[..check(n)]), Log(c, events)[i].id) ==> fp == "" || client(n) == fp
  {
    p := CredentialProvenance(c, events, i);
    var m;
    n, m := ReceivedByItsClient(c, events, client, check, i);
    assert events[..m][n] == events[n];
    BehindIsNamed(c, events, i, p);
  }

  lemma BehindIsVetted(c: Config, events: seq<Event>, i: nat, p: Provenance)
    requires AllVetted(events) && i < |Log(c, events)| && Log(c, events)[i].DidReceive?
    requires ComesFrom(c, Log(c, events), i, p)
    ensures Vetted(Behind(c, Log(c, events), i, p))
  {
    match p {
      case FromApproval(a, _, _) => VettedJob(c, events, a);
      case FromLease(_, _, _, _, u, _) => VettedInRun(c, events, u);
    }
  }

  /** Every credential goes back to the peer that asked the sign handler for it, by its certificate. */
  lemma DeliveredToItsPeer(c: Config, events: seq<Event>, client: nat -> string, check: nat -> nat, i: nat)
    returns (n: nat, s: H.Server, a: H.Asked, p: H.Peer, from: Provenance)
    requires AllVetted(events) && ThroughWaitHandler(c, events, client, check)
    requires i < |Log(c, events)| && Log(c, events)[i].DidReceive? && Log(c, events)[i].res.err.None?
    ensures ComesFrom(c, Log(c, events), i, from) && H.Vet(s, a, p) == Ok(Behind(c, Log(c, events), i, from))
    ensures n < |events| && events[n] == BeginWait(Log(c, events)[i].k, Log(c, events)[i].id)
    ensures Known(Run(c, events[..check(n)]), Log(c, events)[i].id) ==>
              p.clientCertFP == "" || client(n) == p.clientCertFP
  {
    from, n := DeliveredToItsClient(c, events, client, check, i);
    BehindIsVetted(c, events, i, from);
    s, a, p :| H.Vet(s, a, p) == Ok(Behind(c, Log(c, events), i, from));
    H.VettedCarries(s, a, p);
  }

  // --- A check that comes too early ---

  /** A transaction approved in the run, before anyone waits. */
  function ApprovedEvents(id: string, req: Request, approver: string, ttl: Time, signer: Signer): seq<Event> {
    [Create(id, req, 0), BeginApprove(0, id, approver, ttl), Sign(0, 0, signer), Commit(0)]
  }

  lemma ClaimedRun(c: Config, id: string, req: Request, approver: string, ttl: Time)
    ensures var w := Run(c, [Create(id, req, 0), BeginApprove(0, id, approver, ttl)]);
            && w.txs == map[id := Opened(id, req, 0).(tx := Transaction(id, req, Approving, 0))]
            && w.workers == map[0 := Worker(Job(0, id, req, approver, EffectiveTTL(ttl)), Claimed)]
            && w.waits == map[] && w.gone == map[] && w.clock == 0
  {
    var e1, e2 := [Create(id, req, 0)], [Create(id, req, 0), BeginApprove(0, id, approver, ttl)];
    assert e2[..1] == e1 && e1[..0] == [];
    assert Run(c, e1) == Step(c, INIT, e1[0]);
    assert Run(c, e2) == Step(c, Run(c, e1), e2[1]);
  }

  lemma SignAndCommit(c: Config, w: World, id: string, req: Request, approver: string, ttl: Time, signer: Signer)
    requires w.txs == map[id := Opened(id, req, 0).(tx := Transaction(id, req, Approving, 0))] && w.clock == 0
    requires w.workers == map[0 := Worker(Job(0, id, req, approver, ttl), Claimed)] && w.waits == map[]
    requires Issue(c, req, ttl, signer).Ok?
    ensures var w' := Step(c, Step(c, w, Sign(0, 0, signer)), Commit(0));
            var res := Issue(c, req, ttl, signer).value.(leaseExpiresAt := ttl);
            id in w'.txs && w'.txs[id].result == Some(res) && w'.txs[id].tx.req == req && w'.waits == map[]
  {
    var w1 := Step(c, w, Sign(0, 0, signer));
    assert w1.workers[0].phase == Signed(ttl, Issue(c, req, ttl, signer));
    assert w1.txs == w.txs && w1.waits == map[];
  }

  lemma ApprovedRun(c: Config, id: string, req: Request, approver: string, ttl: Time, signer: Signer)
    requires Issue(c, req, EffectiveTTL(ttl), signer).Ok?
    ensures var w := Run(c, ApprovedEvents(id, req, approver, ttl, signer));
            var res := Issue(c, req, EffectiveTTL(ttl), signer).value.(leaseExpiresAt := EffectiveTTL(ttl));
            id in w.txs && w.txs[id].result == Some(res) && w.txs[id].tx.req == req && w.waits == map[]
  {
    var events := ApprovedEvents(id, req, approver, ttl, signer);
    assert events[..2] == [Create(id, req, 0), BeginApprove(0, id, approver, ttl)];
    assert events[..3][..2] == events[..2] && events[..4][..3] == events[..3] && events[..4] == events;
    ClaimedRun(c, id, req, approver, ttl);
    var w := Run(c, events[..2]);
    assert Run(c, events[..3]) == Step(c, w, Sign(0, 0, signer));
    SignAndCommit(c, w, id, req, approver, EffectiveTTL(ttl), signer);
  }

  lemma WaitAndReceive(c: Config, w: World, id: string, res: Result)
    requires id in w.txs && w.txs[id].result == Some(res) && w.waits == map[]
    ensures var w' := Step(c, Step(c, w, BeginWait(0, id)), Receive(0));
            w'.txs == w.txs && w'.log == w.log + [DidReceive(0, id, res)]
  {
    var w1 := Step(c, w, BeginWait(0, id));
    assert w1.waits == map[0 := OnCopy(id, res)] && w1.txs == w.txs && w1.log == w.log;
  }

  /** The condition is needed: past a check made before the transaction exists, a stranger receives the
      credential of whatever is approved under that id. */
  lemma EarlyCheck(c: Config, id: string, req: Request, approver: string, ttl: Time, signer: Signer, client: string)
    requires !MayWait(req, client) && Issue(c, req, EffectiveTTL(ttl), signer).Ok?
    ensures var events := ApprovedEvents(id, req, approver, ttl, signer) + [BeginWait(0, id), Receive(0)];
            var log, res := Log(c, events), Issue(c, req, EffectiveTTL(ttl), signer).value;
            && ThroughWaitHandler(c, events, n => client, n => 0)
            && log != [] && log[|log| - 1] == DidReceive(0, id, res.(leaseExpiresAt := EffectiveTTL(ttl)))
            && Known(Run(c, events), id) && !MayWait(At(Run(c, events), id).tx.req, client)
  {
    var first := ApprovedEvents(id, req, approver, ttl, signer);
    var events := first + [BeginWait(0, id), Receive(0)];
    assert events[..5][..4] == first && events[..6][..5] == events[..5] && events[..6] == events && events[..0] == [];
    ApprovedRun(c, id, req, approver, ttl, signer);
    assert Run(c, events[..5]) == Step(c, Run(c, first), BeginWait(0, id));
    WaitAndReceive(c, Run(c, first), id, Run(c, first).txs[id].result.value);
  }
}
