/** Safety of whole runs of the approval protocol. */
module ProtocolSafety {
  import opened Prelude
  import opened Approval
  import opened Protocol
  import opened ProtocolTables
  import opened ProtocolHistory
  import Lease

  // --- Leases are backed by grants ---

  ghost predicate HasGrant(log: seq<Record>, key: Lease.FullKey, until: Time) {
    exists x :: x in log && GrantOf(x, key, until)
  }

  ghost predicate HasReissue(log: seq<Record>, req: Request, res: Result) {
    exists x :: x in log && ReissueOf(x, req, res)
  }

  ghost predicate ReuseOk(w: World, u: Reuse) {
    match u
    case Found(req, l, foundAt) =>
      && !req.disableLease && foundAt <= l.expiresAt && foundAt <= w.clock
      && HasGrant(w.log, Lease.FullKey(LookupOf(req), l.approver), l.expiresAt)
    case Measured(req, l, foundAt, measuredAt) =>
      && !req.disableLease && foundAt <= l.expiresAt && foundAt <= measuredAt <= w.clock && measuredAt < l.expiresAt
      && HasGrant(w.log, Lease.FullKey(LookupOf(req), l.approver), l.expiresAt)
    case Minted(req, res) => HasReissue(w.log, req, res)
  }

  ghost predicate LeasesBacked(log: seq<Record>, leases: Lease.Leases) {
    forall f :: f in leases ==> leases[f].approver == f.approver && HasGrant(log, f, leases[f].expiresAt)
  }

  ghost predicate Backed(w: World) {
    LeasesBacked(w.log, w.leases) && forall k :: k in w.reuses ==> ReuseOk(w, w.reuses[k])
  }

  lemma GrantsPersist(log: seq<Record>, r: Option<Record>, key: Lease.FullKey, until: Time)
    requires HasGrant(log, key, until)
    ensures HasGrant(Extend(log, r), key, until)
  {
    var x :| x in log && GrantOf(x, key, until);
    assert x in Extend(log, r);
  }

  lemma ReusePersists(w: World, w': World, r: Option<Record>, u: Reuse)
    requires ReuseOk(w, u) && w'.log == Extend(w.log, r) && w.clock <= w'.clock
    ensures ReuseOk(w', u)
  {
    match u {
      case Found(req, l, foundAt) => GrantsPersist(w.log, r, Lease.FullKey(LookupOf(req), l.approver), l.expiresAt);
      case Measured(req, l, foundAt, measuredAt) =>
        GrantsPersist(w.log, r, Lease.FullKey(LookupOf(req), l.approver), l.expiresAt);
      case Minted(req, res) =>
        var x :| x in w.log && ReissueOf(x, req, res);
        assert x in w'.log;
    }
  }

  lemma LeasesPersist(log: seq<Record>, r: Option<Record>, leases: Lease.Leases)
    requires LeasesBacked(log, leases)
    ensures LeasesBacked(Extend(log, r), leases)
  {
    forall f | f in leases ensures HasGrant(Extend(log, r), f, leases[f].expiresAt) {
      GrantsPersist(log, r, f, leases[f].expiresAt);
    }
  }

  /** The request on the fast path an event belongs to. */
  function Reuser(e: Event): Option<nat> {
    match e
    case Find(k, _, _, _) => Some(k)
    case Measure(k, _) => Some(k)
    case Reissue(k, _, _) => Some(k)
    case Register(k, _, _) => Some(k)
    case _ => None
  }

  /** Steps that stay inside the transaction table and its waiters. */
  predicate Inside(e: Event) {
    e.BeginApprove? || e.Commit? || e.Deny? || e.Expire? || e.BeginWait? || e.Receive? || e.EndWait? || e.Cancel?
  }

  predicate SameLeases(w: World, w': World) {
    w'.clock == w.clock && w'.reuses == w.reuses && w'.leases == w.leases
  }

  lemma CommitLeases(w: World, k: nat)
    ensures SameLeases(w, DoCommit(w, k).0)
  {
  }

  lemma WaiterFrame(w: World, k: nat, id: string)
    ensures SameLeases(w, DoWait(w, k, id).0) && SameLeases(w, DoReceive(w, k).0)
    ensures SameLeases(w, DoEndWait(w, k).0) && SameLeases(w, DoCancel(w, k).0)
  {
  }

  lemma InsideFrame(c: Config, w: World, e: Event)
    requires Inside(e)
    ensures SameLeases(w, Do(c, w, e).0)
  {
    match e {
      case BeginApprove(k, id, approver, ttl) => assert SameLeases(w, DoClaim(w, k, id, approver, ttl).0);
      case Commit(k) => CommitLeases(w, k);
      case Deny(_) =>
      case Expire(_) =>
      case BeginWait(k, id) => WaiterFrame(w, k, id);
      case Receive(k) => WaiterFrame(w, k, "");
      case EndWait(k) => WaiterFrame(w, k, "");
      case Cancel(k) => WaiterFrame(w, k, "");
    }
  }

  /** The clock never goes back, and only the event's own request moves on the fast path. */
  predicate LeaseFrame(w: World, w': World, e: Event) {
    && w.clock <= w'.clock
    && (forall k :: k in w'.reuses && Some(k) != Reuser(e) ==> k in w.reuses && w'.reuses[k] == w.reuses[k])
    && (!e.Grant? && !e.Purge? ==> w'.leases == w.leases)
  }

  lemma FindFrame(c: Config, w: World, k: nat, req: Request, now: Time, best: Option<Lease.ActiveLease>)
    ensures LeaseFrame(w, DoFind(c, w, k, req, now, best).0, Find(k, req, now, best))
  {
  }

  lemma MeasureFrame(w: World, k: nat, now: Time)
    ensures LeaseFrame(w, DoMeasure(w, k, now).0, Measure(k, now))
  {
  }

  lemma ReissueFrame(c: Config, w: World, k: nat, now: Time, signer: Signer)
    ensures LeaseFrame(w, DoReissue(c, w, k, now, signer).0, Reissue(k, now, signer))
  {
  }

  lemma RegisterFrame(w: World, k: nat, id: string, now: Time)
    ensures LeaseFrame(w, DoRegister(w, k, id, now).0, Register(k, id, now))
  {
  }

  lemma ReusesFrame(c: Config, w: World, e: Event)
    ensures LeaseFrame(w, Do(c, w, e).0, e)
  {
    if Inside(e) {
      InsideFrame(c, w, e);
    } else {
      match e {
        case Find(k, req, now, best) => FindFrame(c, w, k, req, now, best);
        case Measure(k, now) => MeasureFrame(w, k, now);
        case Reissue(k, now, signer) => ReissueFrame(c, w, k, now, signer);
        case Register(k, id, now) => RegisterFrame(w, k, id, now);
        case Create(id, req, now) =>
        case Sign(k, now, signer) =>
        case Grant(k) =>
        case Purge(now) =>
      }
    }
  }

  lemma FindBacked(c: Config, w: World, k: nat, req: Request, now: Time, best: Option<Lease.ActiveLease>)
    requires Backed(w) && DoFind(c, w, k, req, now, best) != Idle(w)
    ensures var w' := DoFind(c, w, k, req, now, best).0;
            k in w'.reuses && w'.reuses[k] == Found(req, best.value, now) && w'.log == w.log
                && ReuseOk(w', w'.reuses[k])
  {
    var f :| f in w.leases && f.lookup == LookupOf(req) && w.leases[f] == best.value;
    assert f == Lease.FullKey(LookupOf(req), best.value.approver);
  }

  lemma MeasureBacked(w: World, k: nat, now: Time)
    requires Backed(w) && DoMeasure(w, k, now) != Idle(w)
    ensures var w' := DoMeasure(w, k, now).0;
            w'.log == w.log && (k in w'.reuses ==> ReuseOk(w', w'.reuses[k]))
  {
    assert ReuseOk(w, w.reuses[k]);
  }

  lemma ReissueBacked(c: Config, w: World, k: nat, now: Time, signer: Signer)
    requires Backed(w) && DoReissue(c, w, k, now, signer) != Idle(w)
    ensures var (w', r) := DoReissue(c, w, k, now, signer);
            k in w'.reuses ==> ReuseOk(w'.(log := Extend(w.log, r)), w'.reuses[k])
  {
    var (w', r) := DoReissue(c, w, k, now, signer);
    if k in w'.reuses {
      assert r.value in Extend(w.log, r);
      assert ReissueOf(r.value, w'.reuses[k].req, w'.reuses[k].res);
    }
  }

  lemma ReuserBacked(c: Config, w: World, e: Event, k: nat)
    requires Backed(w) && Reuser(e) == Some(k) && Do(c, w, e) != Idle(w)
    ensures k in Step(c, w, e).reuses ==> ReuseOk(Step(c, w, e), Step(c, w, e).reuses[k])
  {
    var w' := Step(c, w, e);
    match e {
      case Find(_, req, now, best) => FindBacked(c, w, k, req, now, best);
      case Measure(_, now) => MeasureBacked(w, k, now);
      case Reissue(_, now, signer) => ReissueBacked(c, w, k, now, signer);
      case Register(_, id, now) =>
    }
  }

  lemma GrantBacked(c: Config, w: World, k: nat)
    requires LeasesBacked(w.log, w.leases)
    ensures var (w', r) := DoGrant(c, w, k);
            LeasesBacked(Extend(w.log, r), w'.leases)
  {
    var (w', r) := DoGrant(c, w, k);
    LeasesPersist(w.log, r, w.leases);
    if r.Some? {
      assert r.value in Extend(w.log, r) && GrantOf(r.value, r.value.key, r.value.until);
    }
  }

  lemma LeasesStep(c: Config, w: World, e: Event)
    requires LeasesBacked(w.log, w.leases)
    ensures LeasesBacked(Step(c, w, e).log, Step(c, w, e).leases)
  {
    var r := Do(c, w, e).1;
    ReusesFrame(c, w, e);
    LeasesPersist(w.log, r, w.leases);
    match e {
      case Grant(k) => GrantBacked(c, w, k);
      case Purge(now) => var v := DoPurge(w, now).0;
      case _ =>
    }
  }

  lemma BackedStep(c: Config, w: World, e: Event)
    requires Backed(w)
    ensures Backed(Step(c, w, e))
  {
    var w', r := Step(c, w, e), Do(c, w, e).1;
    LeasesStep(c, w, e);
    if Do(c, w, e) == Idle(w) {
      IdleStep(c, w, e);
    } else {
      ReusesFrame(c, w, e);
      forall k | k in w'.reuses ensures ReuseOk(w', w'.reuses[k]) {
        if Reuser(e) == Some(k) {
          ReuserBacked(c, w, e, k);
        } else {
          ReusePersists(w, w', r, w'.reuses[k]);
        }
      }
    }
  }

  // --- Waiters ---

  ghost predicate WaitOk(w: World, u: Wait) {
    match u
    case OnChannel(id) => Known(w, id)
    case OnCopy(id, res) => EndedWith(w, id, res)
    case Received(id, res) => EndedWith(w, id, res)
  }

  ghost predicate WaitsOk(w: World) {
    forall k :: k in w.waits ==> WaitOk(w, w.waits[k])
  }

  /** Waits registered on a transaction and not yet returned. */
  function WaitersOn(waits: map<nat, Wait>, id: string): set<nat> {
    set k | k in waits && waits[k] == OnChannel(id)
  }

  /** While a transaction has no result its counter is the number of waiters on it. */
  ghost predicate Counted(txs: Table, waits: map<nat, Wait>) {
    forall id :: id in txs && txs[id].result.None? ==> txs[id].waiters == |WaitersOn(waits, id)|
  }

  function Waiter(e: Event): Option<nat> {
    match e
    case BeginWait(k, _) => Some(k)
    case Receive(k) => Some(k)
    case EndWait(k) => Some(k)
    case Cancel(k) => Some(k)
    case _ => None
  }

  predicate WaitsBut(k: nat, waits: map<nat, Wait>, waits': map<nat, Wait>) {
    forall j :: j in waits' && j != k ==> j in waits && waits'[j] == waits[j]
  }

  lemma WaiterWaits(w: World, k: nat, id: string)
    ensures WaitsBut(k, w.waits, DoWait(w, k, id).0.waits)
    ensures WaitsBut(k, w.waits, DoReceive(w, k).0.waits)
    ensures WaitsBut(k, w.waits, DoEndWait(w, k).0.waits)
    ensures WaitsBut(k, w.waits, DoCancel(w, k).0.waits)
  {
  }

  lemma StrangerWaits(c: Config, w: World, e: Event)
    requires Waiter(e).None?
    ensures Do(c, w, e).0.waits == w.waits
  {
  }

  lemma WaitsFrame(c: Config, w: World, e: Event)
    ensures forall k :: k in Do(c, w, e).0.waits && Some(k) != Waiter(e) ==>
              k in w.waits && Do(c, w, e).0.waits[k] == w.waits[k]
    ensures Waiter(e).None? ==> Do(c, w, e).0.waits == w.waits
  {
    match Waiter(e) {
      case None => StrangerWaits(c, w, e);
      case Some(k) => WaiterWaits(w, k, if e.BeginWait? then e.id else "");
    }
  }

  lemma JoinOk(w: World, k: nat, id: string)
    requires k !in w.waits
    ensures k in DoWait(w, k, id).0.waits ==> WaitOk(DoWait(w, k, id).0, DoWait(w, k, id).0.waits[k])
  {
  }

  lemma ReceiveOk(w: World, k: nat)
    requires Tables(w) && k in w.waits && WaitOk(w, w.waits[k])
    ensures k in DoReceive(w, k).0.waits ==> WaitOk(DoReceive(w, k).0, DoReceive(w, k).0.waits[k])
  {
    var w', id := DoReceive(w, k).0, w.waits[k].id;
    ReceiveMoves(w, k);
    assert Known(w, id) && Sound(At(w, id)) && Evolves(At(w, id), At(w', id));
  }

  lemma WaiterOk(c: Config, w: World, e: Event, k: nat)
    requires Tables(w) && WaitsOk(w) && Waiter(e) == Some(k)
    ensures k in Do(c, w, e).0.waits ==> WaitOk(Do(c, w, e).0, Do(c, w, e).0.waits[k])
  {
    assert k in w.waits ==> WaitOk(w, w.waits[k]);
    match e {
      case BeginWait(_, id) => if k !in w.waits { JoinOk(w, k, id); }
      case Receive(_) => if k in w.waits { ReceiveOk(w, k); }
      case EndWait(_) =>
      case Cancel(_) =>
    }
  }

  lemma WaitsStep(c: Config, w: World, e: Event)
    requires Tables(w) && WaitsOk(w)
    ensures WaitsOk(Step(c, w, e))
  {
    var w1, w' := Do(c, w, e).0, Step(c, w, e);
    WaitsFrame(c, w, e);
    EventMoves(c, w, e);
    SameEntries(w1, w');
    forall k | k in w'.waits ensures WaitOk(w', w'.waits[k]) {
      if Waiter(e) == Some(k) {
        WaiterOk(c, w, e, k);
      } else {
        var id := w.waits[k].id;
        assert WaitOk(w, w.waits[k]) && Known(w, id);
        assert Evolves(At(w, id), At(w1, id));
      }
    }
  }

  // --- Counting waiters ---

  lemma JoinedChange(waits: map<nat, Wait>, waits': map<nat, Wait>, k: nat, id: string)
    requires waits' - {k} == waits - {k}
    ensures WaitersOn(waits', id) - {k} == WaitersOn(waits, id) - {k}
  {
    forall j | j != k ensures j in WaitersOn(waits', id) <==> j in WaitersOn(waits, id) {
      assert j in waits' - {k} <==> j in waits - {k};
      if j in waits' - {k} {
        assert (waits' - {k})[j] == (waits - {k})[j];
      }
    }
  }

  /** Other transactions' waiters are not touched by one waiter's step. */
  lemma JoinedElsewhere(waits: map<nat, Wait>, waits': map<nat, Wait>, k: nat, id: string)
    requires waits' - {k} == waits - {k}
    requires k in waits ==> waits[k] != OnChannel(id)
    requires k in waits' ==> waits'[k] != OnChannel(id)
    ensures WaitersOn(waits', id) == WaitersOn(waits, id)
  {
    JoinedChange(waits, waits', k, id);
    assert WaitersOn(waits', id) - {k} == WaitersOn(waits', id) && WaitersOn(waits, id) - {k} == WaitersOn(waits, id);
  }

  lemma JoinAdds(waits: map<nat, Wait>, k: nat, id: string, i: string)
    requires k !in waits
    ensures |WaitersOn(waits[k := OnChannel(id)], i)| == |WaitersOn(waits, i)| + if i == id then 1 else 0
  {
    var waits' := waits[k := OnChannel(id)];
    if i == id {
      assert WaitersOn(waits', i) == WaitersOn(waits, i) + {k};
    } else {
      assert WaitersOn(waits', i) == WaitersOn(waits, i);
    }
  }

  lemma CopyKeeps(waits: map<nat, Wait>, k: nat, id: string, res: Result, i: string)
    requires k !in waits
    ensures WaitersOn(waits[k := OnCopy(id, res)], i) == WaitersOn(waits, i)
  {
    assert waits[k := OnCopy(id, res)] - {k} == waits - {k};
    JoinedElsewhere(waits, waits[k := OnCopy(id, res)], k, i);
  }

  lemma WaitCounted(w: World, k: nat, id: string)
    requires Counted(w.txs, w.waits)
    ensures Counted(DoWait(w, k, id).0.txs, DoWait(w, k, id).0.waits)
  {
    var w' := DoWait(w, k, id).0;
    if k !in w.waits && id in w.txs {
      forall i | i in w'.txs && w'.txs[i].result.None? ensures w'.txs[i].waiters == |WaitersOn(w'.waits, i)| {
        if w.txs[id].result.None? {
          JoinAdds(w.waits, k, id, i);
        } else {
          CopyKeeps(w.waits, k, id, w.txs[id].result.value, i);
        }
      }
    }
  }

  /** A receive touches only a waiter of a transaction that has its result. */
  lemma ReceiveEffect(w: World, k: nat)
    requires Tables(w) && k in w.waits && WaitOk(w, w.waits[k])
    ensures var w' := DoReceive(w, k).0;
            && w'.waits - {k} == w.waits - {k}
            && (w'.waits == w.waits || (k in w'.waits && w'.waits[k].Received? && w'.waits[k].id == w.waits[k].id))
            && (w'.waits != w.waits ==> Known(w, w.waits[k].id) && At(w, w.waits[k].id).result.Some?)
            && forall i :: i in w'.txs && w'.txs[i].result.None? ==> i in w.txs && w.txs[i] == w'.txs[i]
  {
    assert Known(w, w.waits[k].id) && Sound(At(w, w.waits[k].id));
  }

  lemma ReceiveCounted(w: World, k: nat)
    requires Tables(w) && WaitsOk(w) && Counted(w.txs, w.waits)
    ensures Counted(DoReceive(w, k).0.txs, DoReceive(w, k).0.waits)
  {
    if k in w.waits {
      var w' := DoReceive(w, k).0;
      ReceiveEffect(w, k);
      forall i | i in w'.txs && w'.txs[i].result.None? ensures w'.txs[i].waiters == |WaitersOn(w'.waits, i)| {
        if w'.waits != w.waits {
          JoinedElsewhere(w.waits, w'.waits, k, i);
        }
      }
    }
  }

  lemma EndWaitCounted(w: World, k: nat)
    requires Counted(w.txs, w.waits)
    ensures Counted(DoEndWait(w, k).0.txs, DoEndWait(w, k).0.waits)
  {
    var w' := DoEndWait(w, k).0;
    if k in w.waits && w.waits[k].Received? {
      assert w'.waits - {k} == w.waits - {k};
      forall i | i in w'.txs && w'.txs[i].result.None? ensures w'.txs[i].waiters == |WaitersOn(w'.waits, i)| {
        JoinedElsewhere(w.waits, w'.waits, k, i);
      }
    }
  }

  lemma CancelCounts(w: World, k: nat, i: string)
    requires k in w.waits && !w.waits[k].Received? && WaitOk(w, w.waits[k])
    requires i in DoCancel(w, k).0.txs && DoCancel(w, k).0.txs[i].result.None?
    requires i in w.txs && w.txs[i].waiters == |WaitersOn(w.waits, i)|
    ensures DoCancel(w, k).0.txs[i].waiters == |WaitersOn(DoCancel(w, k).0.waits, i)|
  {
    var waits := DoCancel(w, k).0.waits;
    assert waits == w.waits - {k};
    if i == w.waits[k].id && w.waits[k].OnChannel? {
      OneLess(w.txs, w.waits, k, i);
    } else {
      JoinedElsewhere(w.waits, waits, k, i);
    }
  }

  lemma OneLess(txs: Table, waits: map<nat, Wait>, k: nat, i: string)
    requires k in waits && waits[k] == OnChannel(i) && i in CancelWait(txs, i)
              && txs[i].waiters == |WaitersOn(waits, i)|
    ensures CancelWait(txs, i)[i].waiters == |WaitersOn(waits - {k}, i)|
  {
    assert WaitersOn(waits - {k}, i) == WaitersOn(waits, i) - {k};
  }

  lemma CancelCounted(w: World, k: nat)
    requires WaitsOk(w) && Counted(w.txs, w.waits)
    ensures Counted(DoCancel(w, k).0.txs, DoCancel(w, k).0.waits)
  {
    var w' := DoCancel(w, k).0;
    if k in w.waits && !w.waits[k].Received? {
      assert WaitOk(w, w.waits[k]);
      forall i | i in w'.txs && w'.txs[i].result.None? ensures w'.txs[i].waiters == |WaitersOn(w'.waits, i)| {
        CancelCounts(w, k, i);
      }
    }
  }

  lemma StrangerCounted(c: Config, w: World, e: Event)
    requires Tables(w) && WaitsOk(w) && Counted(w.txs, w.waits) && Waiter(e).None?
    ensures Counted(Do(c, w, e).0.txs, Do(c, w, e).0.waits)
  {
    var w' := Do(c, w, e).0;
    WaitsFrame(c, w, e);
    EventMoves(c, w, e);
    forall i | i in w'.txs && w'.txs[i].result.None? ensures w'.txs[i].waiters == |WaitersOn(w.waits, i)| {
      if i in w.txs {
        WaitersKept(c, w, e, i);
        assert Known(w, i) && Evolves(At(w, i), At(w', i));
      } else {
        NewHasNoWaiters(c, w, e, i);
        NoneJoined(w, i);
      }
    }
  }

  lemma NoneJoined(w: World, id: string)
    requires WaitsOk(w) && !Known(w, id)
    ensures WaitersOn(w.waits, id) == {}
  {
    forall k | k in w.waits ensures w.waits[k] != OnChannel(id) {
      assert WaitOk(w, w.waits[k]);
    }
  }

  lemma WaitersKept(c: Config, w: World, e: Event, id: string)
    requires Waiter(e).None? && id in w.txs && id in Do(c, w, e).0.txs
    ensures Do(c, w, e).0.txs[id].waiters == w.txs[id].waiters
  {
  }

  lemma NewHasNoWaiters(c: Config, w: World, e: Event, id: string)
    requires Waiter(e).None? && id !in w.txs && id in Do(c, w, e).0.txs
    ensures !Known(w, id) && Do(c, w, e).0.txs[id].waiters == 0
  {
  }

  lemma CountedStep(c: Config, w: World, e: Event)
    requires Tables(w) && WaitsOk(w) && Counted(w.txs, w.waits)
    ensures Counted(Step(c, w, e).txs, Step(c, w, e).waits)
  {
    match e {
      case BeginWait(k, id) => WaitCounted(w, k, id);
      case Receive(k) => ReceiveCounted(w, k);
      case EndWait(k) => EndWaitCounted(w, k);
      case Cancel(k) => CancelCounted(w, k);
      case _ => StrangerCounted(c, w, e);
    }
  }
}
