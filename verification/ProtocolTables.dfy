/** What every step of the protocol does to every transaction, live or deleted. */
module ProtocolTables {
  import opened Prelude
  import opened Approval
  import opened Protocol
  import Lease

  /** A transaction is either live or deleted, filed under its id, and sound. */
  predicate Tables(w: World) {
    && (forall id :: id in w.txs ==> id !in w.gone && w.txs[id].tx.id == id && Sound(w.txs[id]))
    && (forall id :: id in w.gone ==> w.gone[id].tx.id == id && Sound(w.gone[id]))
  }

  /** No transaction is forgotten, and each one takes a step of its life or none. */
  ghost predicate Moves(w: World, w': World) {
    Tables(w') && forall id :: Known(w, id) ==> Known(w', id) && Evolves(At(w, id), At(w', id))
  }

  lemma SameTables(w: World, w': World)
    requires Tables(w) && w'.txs == w.txs && w'.gone == w.gone
    ensures Moves(w, w')
  {
    forall id | Known(w, id) ensures Known(w', id) && Evolves(At(w, id), At(w', id)) {
      assert At(w', id) == At(w, id);
    }
  }

  /** A table operation that keeps the ids. */
  lemma TableMoves(w: World, w': World)
    requires Tables(w) && w'.gone == w.gone && w'.txs.Keys == w.txs.Keys && TableEvolves(w.txs, w'.txs)
    ensures Moves(w, w')
  {
    forall id | id in w'.txs ensures id !in w'.gone && w'.txs[id].tx.id == id && Sound(w'.txs[id]) {
      assert id in w.txs && Sound(w.txs[id]);
    }
    forall id | Known(w, id) ensures Known(w', id) && Evolves(At(w, id), At(w', id)) {
      if id in w.txs {
        assert Sound(w.txs[id]);
      }
    }
  }

  lemma NewEntryMoves(w: World, w': World, id: string, e: Entry)
    requires Tables(w) && !Known(w, id) && w'.gone == w.gone && w'.txs == w.txs[id := e]
    requires Sound(e) && e.tx.id == id
    ensures Moves(w, w')
  {
    forall i | Known(w, i) ensures Known(w', i) && Evolves(At(w, i), At(w', i)) {
      assert At(w', i) == At(w, i);
    }
  }

  lemma DetachMoves(w: World, w': World, id: string)
    requires Tables(w) && w'.txs == Detach(w, id).txs && w'.gone == Detach(w, id).gone
    ensures Moves(w, w')
  {
    forall i | Known(w, i) ensures Known(w', i) && Evolves(At(w, i), At(w', i)) {
      assert At(w', i) == At(w, i);
    }
  }

  lemma TakeMoves(w: World, w': World, id: string)
    requires Tables(w) && Known(w, id)
    requires if id in w.txs then w'.txs == w.txs[id := Take(w.txs[id]).0] && w'.gone == w.gone
             else w'.txs == w.txs && w'.gone == w.gone[id := Take(w.gone[id]).0]
    ensures Moves(w, w')
  {
    forall i | Known(w, i) ensures Known(w', i) && Evolves(At(w, i), At(w', i)) {
      if i != id {
        assert At(w', i) == At(w, i);
      }
    }
  }

  lemma FinishMoves(w: World, id: string, from: State, s: State, res: Result, cause: Option<Job>)
    requires Tables(w)
    requires (from.Pending? && (s.Denied? || s.Expired?)) || (from.Approving? && (s.Denied? || s.Approved?))
    ensures Moves(w, DoFinish(w, id, from, s, res, cause).0)
  {
    FinishEvolves(w.txs, id, from, s, res);
    TableMoves(w, DoFinish(w, id, from, s, res, cause).0);
  }

  lemma CommitMoves(w: World, k: nat)
    requires Tables(w)
    ensures Moves(w, DoCommit(w, k).0)
  {
    if k !in w.workers || !w.workers[k].phase.Signed? {
      SameTables(w, w);
    } else {
      var Worker(job, Signed(until, outcome)) := w.workers[k];
      if outcome.Err? {
        FinishEvolves(w.txs, job.id, Approving, Denied, Failure(outcome.error));
      } else {
        FinishEvolves(w.txs, job.id, Approving, Approved, outcome.value.(leaseExpiresAt := until));
      }
      TableMoves(w, DoCommit(w, k).0);
    }
  }

  lemma CancelMoves(w: World, k: nat)
    requires Tables(w)
    ensures Moves(w, DoCancel(w, k).0)
  {
    var w' := DoCancel(w, k).0;
    if k !in w.waits || w.waits[k].Received? {
      SameTables(w, w');
    } else {
      var id := w.waits[k].id;
      CancelEvolves(w.txs, id);
      if id in w.txs && id !in CancelWait(w.txs, id) {
        DetachMoves(w, w', id);
      } else {
        TableMoves(w, w');
      }
    }
  }

  lemma ReceiveMoves(w: World, k: nat)
    requires Tables(w)
    ensures Moves(w, DoReceive(w, k).0)
  {
    var w' := DoReceive(w, k).0;
    if k in w.waits && w.waits[k].OnChannel? && Known(w, w.waits[k].id) && At(w, w.waits[k].id).slot.Some? {
      TakeMoves(w, w', w.waits[k].id);
    } else {
      SameTables(w, w');
    }
  }

  lemma CreateMoves(w: World, id: string, req: Request, now: Time)
    requires Tables(w)
    ensures Moves(w, DoCreate(w, id, req, now).0)
  {
    var w' := DoCreate(w, id, req, now).0;
    if Known(w, id) || now < w.clock {
      SameTables(w, w');
    } else {
      NewEntryMoves(w, w', id, Opened(id, req, now));
    }
  }

  lemma ClaimMoves(w: World, k: nat, id: string, approver: string, ttl: Time)
    requires Tables(w)
    ensures Moves(w, DoClaim(w, k, id, approver, ttl).0)
  {
    var w' := DoClaim(w, k, id, approver, ttl).0;
    if k in w.workers || !Claim(w.txs, id).1 {
      SameTables(w, w');
    } else {
      ClaimEvolves(w.txs, id);
      TableMoves(w, w');
    }
  }

  lemma WaitMoves(w: World, k: nat, id: string)
    requires Tables(w)
    ensures Moves(w, DoWait(w, k, id).0)
  {
    var w' := DoWait(w, k, id).0;
    if k in w.waits || !WaitOn(w.txs, id).1.Joined? {
      SameTables(w, w');
    } else {
      WaitEvolves(w.txs, id);
      TableMoves(w, w');
    }
  }

  lemma EndWaitMoves(w: World, k: nat)
    requires Tables(w)
    ensures Moves(w, DoEndWait(w, k).0)
  {
    if k !in w.waits || !w.waits[k].Received? {
      SameTables(w, w);
    } else {
      DetachMoves(w, DoEndWait(w, k).0, w.waits[k].id);
    }
  }

  lemma RegisterMoves(w: World, k: nat, id: string, now: Time)
    requires Tables(w)
    ensures Moves(w, DoRegister(w, k, id, now).0)
  {
    var w' := DoRegister(w, k, id, now).0;
    if k !in w.reuses || !w.reuses[k].Minted? || Known(w, id) || now < w.clock {
      SameTables(w, w');
    } else {
      NewEntryMoves(w, w', id, Instant(id, InstantRequest(w.reuses[k].req), w.reuses[k].res, now));
    }
  }

  /** Steps outside the transaction table. */
  predicate Outside(e: Event) {
    e.Sign? || e.Grant? || e.Find? || e.Measure? || e.Reissue? || e.Purge?
  }

  predicate KeepsTransactions(w: World, w': World) {
    w'.txs == w.txs && w'.gone == w.gone && w'.waits == w.waits
  }

  lemma SignKeeps(c: Config, w: World, k: nat, now: Time, signer: Signer)
    ensures KeepsTransactions(w, DoSign(c, w, k, now, signer).0)
  {
  }

  lemma GrantKeeps(c: Config, w: World, k: nat)
    ensures KeepsTransactions(w, DoGrant(c, w, k).0)
  {
  }

  lemma FindKeeps(c: Config, w: World, k: nat, req: Request, now: Time, best: Option<Lease.ActiveLease>)
    ensures KeepsTransactions(w, DoFind(c, w, k, req, now, best).0)
  {
  }

  lemma MeasureKeeps(w: World, k: nat, now: Time)
    ensures KeepsTransactions(w, DoMeasure(w, k, now).0)
  {
  }

  lemma ReissueKeeps(c: Config, w: World, k: nat, now: Time, signer: Signer)
    ensures KeepsTransactions(w, DoReissue(c, w, k, now, signer).0)
  {
  }

  lemma OutsideKeeps(c: Config, w: World, e: Event)
    requires Outside(e)
    ensures KeepsTransactions(w, Do(c, w, e).0)
  {
    match e {
      case Sign(k, now, signer) => SignKeeps(c, w, k, now, signer);
      case Grant(k) => GrantKeeps(c, w, k);
      case Find(k, req, now, best) => FindKeeps(c, w, k, req, now, best);
      case Measure(k, now) => MeasureKeeps(w, k, now);
      case Reissue(k, now, signer) => ReissueKeeps(c, w, k, now, signer);
      case Purge(now) =>
    }
  }

  lemma OutsideMoves(c: Config, w: World, e: Event)
    requires Tables(w) && Outside(e)
    ensures Moves(w, Do(c, w, e).0)
  {
    var w' := Do(c, w, e).0;
    OutsideKeeps(c, w, e);
    SameTables(w, w');
  }

  lemma EventMoves(c: Config, w: World, e: Event)
    requires Tables(w)
    ensures Moves(w, Do(c, w, e).0)
  {
    if Outside(e) {
      OutsideMoves(c, w, e);
    } else {
      match e {
        case Create(id, req, now) => CreateMoves(w, id, req, now);
        case BeginApprove(k, id, approver, ttl) => ClaimMoves(w, k, id, approver, ttl);
        case Commit(k) => CommitMoves(w, k);
        case Deny(id) => FinishMoves(w, id, Pending, Denied, Failure(DeniedByApprover), None);
        case Expire(id) => FinishMoves(w, id, Pending, Expired, Failure(Timeout), None);
        case BeginWait(k, id) => WaitMoves(w, k, id);
        case Receive(k) => ReceiveMoves(w, k);
        case EndWait(k) => EndWaitMoves(w, k);
        case Cancel(k) => CancelMoves(w, k);
        case Register(k, id, now) => RegisterMoves(w, k, id, now);
      }
    }
  }

  lemma StepMoves(c: Config, w: World, e: Event)
    requires Tables(w)
    ensures Moves(w, Step(c, w, e))
  {
    EventMoves(c, w, e);
    var w', w'' := Do(c, w, e).0, Step(c, w, e);
    forall id | Known(w, id) ensures Known(w'', id) && Evolves(At(w, id), At(w'', id)) {
      assert At(w'', id) == At(w', id);
    }
  }

  lemma {:induction false} RunTables(c: Config, events: seq<Event>)
    ensures Tables(Run(c, events))
  {
    if events != [] {
      RunTables(c, events[..|events| - 1]);
      StepMoves(c, Run(c, events[..|events| - 1]), events[|events| - 1]);
    }
  }

  // --- Results about whole runs ---

  /** From any point of any run to any later one: no transaction disappears or changes its request,
      states only follow the diagram, and a result once set never changes. */
  lemma {:induction false} TransactionsOnlyAdvance(c: Config, events: seq<Event>, n: nat, id: string)
    requires n <= |events| && Known(Run(c, events[..n]), id)
    ensures Known(Run(c, events), id)
    ensures var e, e' := At(Run(c, events[..n]), id), At(Run(c, events), id);
            && e'.tx == e.tx.(state := e'.tx.state)
            && (e'.tx.state.Pending? ==> e.tx.state.Pending?)
            && (e.tx.state.Approving? ==> e'.tx.state.Approving? || e'.tx.state.Approved? || e'.tx.state.Denied?)
            && (e.tx.state.Approved? || e.tx.state.Denied? || e.tx.state.Expired? ==> e'.tx.state == e.tx.state)
            && (e.result.Some? ==> e'.result == e.result && e'.tx.state == e.tx.state)
  {
    if n == |events| {
      assert events[..n] == events;
    } else {
      var init := events[..|events| - 1];
      assert init[..n] == events[..n];
      TransactionsOnlyAdvance(c, init, n, id);
      RunTables(c, init);
      StepMoves(c, Run(c, init), events[|events| - 1]);
    }
  }

  /** In every reachable world a transaction has a result exactly when its state is terminal, and
      its channel holds nothing else. */
  lemma ResultsAreTerminal(c: Config, events: seq<Event>, id: string)
    requires Known(Run(c, events), id)
    ensures var e := At(Run(c, events), id);
            && e.tx.id == id
            && (e.result.Some? <==> e.tx.state.Approved? || e.tx.state.Denied? || e.tx.state.Expired?)
            && (e.slot.Some? ==> e.slot == e.result)
            && (e.result.None? ==> e.slot.None? && !e.closed)
  {
    RunTables(c, events);
  }
}
