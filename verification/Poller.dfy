/** The Telegram poller: callbacks in arbitrary batches, with repeats, against the approval store. */
module Poller {
  import opened Prelude
  import opened Decimal
  import Lease
  import A = Approval
  import C = Callback
  import P = Protocol

  // --- One approval from beginning to end ---

  datatype Stores = Stores(txs: A.Table, leases: Lease.Leases)

  /** Commit what the signer answered and, on success, leave a lease behind. */
  function CommitNow(c: A.Config, s: Stores, id: string, req: A.Request, approver: string, until: Time,
                     outcome: Outcome<A.Result, A.Error>): Stores
  {
    match outcome
    case Err(e) => s.(txs := A.FinishFrom(s.txs, id, A.Approving, A.Denied, A.Failure(e)).0)
    case Ok(r) =>
      var (txs, ok) := A.FinishFrom(s.txs, id, A.Approving, A.Approved, r.(leaseExpiresAt := until));
      if ok && A.LeaseAllowed(c, req, approver)
      then Stores(txs, Lease.PutLease(s.leases, Lease.FullKey(A.LookupOf(req), approver), until))
      else s.(txs := txs)
  }

  /** Claim, sign, commit and lease in one go, as an uninterrupted call of Approve does. */
  function ApproveNow(c: A.Config, s: Stores, id: string, ttl: Time, approver: string, now: Time, signer: A.Signer)
    : Stores
  {
    var (claimed, ok) := A.Claim(s.txs, id);
    if !ok then s
    else
      var req := claimed[id].tx.req;
      var until := now + A.EffectiveTTL(ttl);
      CommitNow(c, s.(txs := claimed), id, req, approver, until, A.Issue(c, req, until, signer))
  }

  method Commit(c: A.Config, store: A.Store, leases: Lease.Store, id: string, req: A.Request, approver: string,
                until: Time, outcome: Outcome<A.Result, A.Error>)
    requires store.Valid() && leases.Valid()
    modifies store.Entries(), leases
    ensures store.Valid() && leases.Valid()
    ensures var s := CommitNow(c, Stores(old(store.Contents()), old(leases.leases)), id, req, approver, until, outcome);
            store.Contents() == s.txs && leases.leases == s.leases
  {
    match outcome {
      case Err(e) =>
        var denied := store.FinishClaimed(id, A.Denied, A.Failure(e));
      case Ok(r) =>
        var ok := store.FinishClaimed(id, A.Approved, r.(leaseExpiresAt := until));
        if !ok {
          return;
        }
        if A.LeaseAllowed(c, req, approver) {
          leases.Put(Lease.FullKey(A.LookupOf(req), approver), until);
        }
    }
  }

  method Approve(c: A.Config, store: A.Store, leases: Lease.Store, id: string, ttl: Time, approver: string, now: Time,
                 signer: A.Signer)
    requires store.Valid() && leases.Valid()
    modifies store.Entries(), leases
    ensures store.Valid() && leases.Valid()
    ensures var s := ApproveNow(c, Stores(old(store.Contents()), old(leases.leases)), id, ttl, approver, now, signer);
            store.Contents() == s.txs && leases.leases == s.leases
  {
    ghost var s := Stores(store.Contents(), leases.leases);
    var entry := store.ClaimApproval(id);
    if entry.None? {
      return;
    }
    ghost var claimed := store.Contents();
    var req := entry.value.tx.req;
    assert req == claimed[id].tx.req;
    var until := now + A.EffectiveTTL(ttl);
    assert ApproveNow(c, s, id, ttl, approver, now, signer)
        == CommitNow(c, s.(txs := claimed), id, req, approver, until, A.Issue(c, req, until, signer));
    Commit(c, store, leases, id, req, approver, until, A.Issue(c, req, until, signer));
  }

  /** The same call as four events of the protocol. */
  function ApproveCall(c: A.Config, w: P.World, k: nat, id: string, ttl: Time, approver: string, now: Time,
                       signer: A.Signer)
    : P.World
  {
    var w' := P.Step(c, w, P.BeginApprove(k, id, approver, ttl));
    Finishing(c, P.Step(c, w', P.Sign(k, now, signer)), k)
  }

  function Finishing(c: A.Config, w: P.World, k: nat): P.World {
    P.Step(c, P.Step(c, w, P.Commit(k)), P.Grant(k))
  }

  lemma SignedCall(c: A.Config, w: P.World, k: nat, job: P.Job, until: Time, outcome: Outcome<A.Result, A.Error>)
    requires k in w.workers && w.workers[k] == P.Worker(job, P.Signed(until, outcome))
              && A.InState(w.txs, job.id, A.Approving)
    ensures var s := CommitNow(c, Stores(w.txs, w.leases), job.id, job.req, job.approver, until, outcome);
            Finishing(c, w, k).txs == s.txs && Finishing(c, w, k).leases == s.leases
  {
    var w' := P.Step(c, w, P.Commit(k));
    if outcome.Err? {
      assert P.Step(c, w', P.Grant(k)) == w';
    } else {
      assert w'.workers[k] == P.Worker(job, P.Committed(outcome.value.(leaseExpiresAt := until)));
    }
  }

  lemma IdleCall(c: A.Config, w: P.World, k: nat, now: Time, signer: A.Signer)
    requires k !in w.workers
    ensures Finishing(c, P.Step(c, w, P.Sign(k, now, signer)), k) == w
  {
    assert P.Step(c, w, P.Sign(k, now, signer)) == w;
    assert P.Step(c, w, P.Commit(k)) == w;
  }

  /** An approval that nobody interrupts is a run of the protocol. */
  lemma ApproveIsProtocol(c: A.Config, w: P.World, k: nat, id: string, ttl: Time, approver: string, now: Time,
                          signer: A.Signer)
    requires k !in w.workers && w.clock <= now
    ensures var s := ApproveNow(c, Stores(w.txs, w.leases), id, ttl, approver, now, signer);
            var w' := ApproveCall(c, w, k, id, ttl, approver, now, signer);
            w'.txs == s.txs && w'.leases == s.leases
  {
    var w1 := P.Step(c, w, P.BeginApprove(k, id, approver, ttl));
    if A.Claim(w.txs, id).1 {
      var req := w.txs[id].tx.req;
      var until := now + A.EffectiveTTL(ttl);
      var w2 := P.Step(c, w1, P.Sign(k, now, signer));
      SignedCall(c, w2, k, P.Job(k, id, req, approver, A.EffectiveTTL(ttl)), until, A.Issue(c, req, until, signer));
    } else {
      IdleCall(c, w1, k, now, signer);
    }
  }

  // --- Decisions ---

  /** What reaches a transaction: an approver's yes or no, or its timer. */
  datatype Decision =
    | Yes(id: string, ttl: Time, approver: string, now: Time, signer: A.Signer)
    | No(id: string)
    | Timeout(id: string)

  function Act(c: A.Config, s: Stores, x: Decision): Stores {
    match x
    case Yes(id, ttl, approver, now, signer) => ApproveNow(c, s, id, ttl, approver, now, signer)
    case No(id) => s.(txs := A.FinishFrom(s.txs, id, A.Pending, A.Denied, A.Failure(A.DeniedByApprover)).0)
    case Timeout(id) => s.(txs := A.FinishFrom(s.txs, id, A.Pending, A.Expired, A.Failure(A.Timeout)).0)
  }

  function ActAll(c: A.Config, s: Stores, xs: seq<Decision>): Stores
    decreases |xs|
  {
    if xs == [] then s else ActAll(c, Act(c, s, xs[0]), xs[1..])
  }

  // --- Updates ---

  /** A button press; chat is missing when the update carries no message. */
  datatype Press = Press(data: string, from: Int64, chat: Option<Int64>)

  datatype Update = Update(updateID: Int64, press: Option<Press>)

  /** An update together with the clock and the signer's answer while it is handled. */
  datatype Delivery = Delivery(update: Update, now: Time, signer: A.Signer)

  datatype Setup = Setup(chatID: string, users: string, allowed: seq<Int64>)

  function ApproverName(chat: Int64): string {
    "telegram:" + Itoa(chat)
  }

  /** The decision an update stands for, once its data parses and its chat and user are authorised. */
  function DecisionOf(p: Setup, d: Delivery): Option<Decision> {
    match d.update.press
    case None => None
    case Some(press) =>
      if press.data == "" || press.chat.None? then None
      else if !C.ChatAllowed(p.chatID, press.chat.value) || !C.UserAllowed(p.chatID, p.users, press.from) then None
      else
        match C.Parse(press.data, p.allowed)
        case None => None
        case Some(Deny(id)) => Some(No(id))
        case Some(Approve(id, ttl)) => Some(Yes(id, C.ChosenTTL(ttl, p.allowed), ApproverName(press.chat.value), d.now,
            d.signer))
  }

  /** handleUpdate. */
  function Handle(c: A.Config, p: Setup, s: Stores, d: Delivery): Stores {
    match DecisionOf(p, d)
    case None => s
    case Some(x) => Act(c, s, x)
  }

  function HandleAll(c: A.Config, p: Setup, s: Stores, ds: seq<Delivery>): Stores
    decreases |ds|
  {
    if ds == [] then s else HandleAll(c, p, Handle(c, p, s, ds[0]), ds[1..])
  }

  /** The decisions a run of updates stands for, in order. */
  function Decisions(p: Setup, ds: seq<Delivery>): seq<Decision> {
    if ds == [] then []
    else (if DecisionOf(p, ds[0]).Some? then [DecisionOf(p, ds[0]).value] else []) + Decisions(p, ds[1..])
  }

  /** Updates that are malformed or not authorised might as well not be there. */
  lemma {:induction false} OnlyDecisionsMatter(c: A.Config, p: Setup, s: Stores, ds: seq<Delivery>)
    ensures HandleAll(c, p, s, ds) == ActAll(c, s, Decisions(p, ds))
    decreases |ds|
  {
    if ds != [] {
      OnlyDecisionsMatter(c, p, Handle(c, p, s, ds[0]), ds[1..]);
      var rest := Decisions(p, ds[1..]);
      if DecisionOf(p, ds[0]).Some? {
        var all := [DecisionOf(p, ds[0]).value] + rest;
        assert all[1..] == rest;
      } else {
        assert [] + rest == rest;
      }
    }
  }

  function NextOffset(offset: Int64, updateID: Int64): Int64 {
    if updateID >= offset then Wrap64(updateID + 1) else offset
  }

  function OffsetAfter(offset: Int64, ds: seq<Delivery>): Int64
    decreases |ds|
  {
    if ds == [] then offset else OffsetAfter(NextOffset(offset, ds[0].update.updateID), ds[1..])
  }

  lemma FirstOfRest(c: A.Config, p: Setup, s: Stores, offset: Int64, batch: seq<Delivery>, n: nat)
    requires n < |batch|
    ensures HandleAll(c, p, s, batch[n..]) == HandleAll(c, p, Handle(c, p, s, batch[n]), batch[n + 1..])
    ensures OffsetAfter(offset, batch[n..]) == OffsetAfter(NextOffset(offset, batch[n].update.updateID), batch[n + 1..])
  {
    assert batch[n..][0] == batch[n] && batch[n..][1..] == batch[n + 1..];
  }

  class LongPoller {
    const setup: Setup
    var offset: Int64

    constructor (setup: Setup)
      ensures this.setup == setup && offset == 0
    {
      this.setup := setup;
      offset := 0;
    }

    method HandleUpdate(c: A.Config, store: A.Store, leases: Lease.Store, d: Delivery)
      requires store.Valid() && leases.Valid()
      modifies store.Entries(), leases
      ensures store.Valid() && leases.Valid()
      ensures var s := Handle(c, setup, Stores(old(store.Contents()), old(leases.leases)), d);
              store.Contents() == s.txs && leases.leases == s.leases
    {
      match DecisionOf(setup, d) {
        case None =>
        case Some(No(id)) => store.Deny(id);
        case Some(Yes(id, ttl, approver, now, signer)) => Approve(c, store, leases, id, ttl, approver, now, signer);
        case Some(Timeout(_)) => assert false;
      }
    }

    /** One turn of the loop of pollOnce. */
    method Poll(c: A.Config, store: A.Store, leases: Lease.Store, d: Delivery)
      requires store.Valid() && leases.Valid()
      modifies this`offset, store.Entries(), leases
      ensures store.Valid() && leases.Valid() && offset == NextOffset(old(offset), d.update.updateID)
      ensures var s := Handle(c, setup, Stores(old(store.Contents()), old(leases.leases)), d);
              store.Contents() == s.txs && leases.leases == s.leases
    {
      if d.update.updateID >= offset {
        offset := Wrap64(d.update.updateID + 1);
      }
      HandleUpdate(c, store, leases, d);
    }

    /** The loop of pollOnce over one batch. */
    method PollOnce(c: A.Config, store: A.Store, leases: Lease.Store, batch: seq<Delivery>)
      requires store.Valid() && leases.Valid()
      modifies this`offset, store.Entries(), leases
      ensures store.Valid() && leases.Valid()
      ensures offset == OffsetAfter(old(offset), batch)
      ensures var s := HandleAll(c, setup, Stores(old(store.Contents()), old(leases.leases)), batch);
              store.Contents() == s.txs && leases.leases == s.leases
    {
      ghost var start := Stores(store.Contents(), leases.leases);
      ghost var s := start;
      for n := 0 to |batch|
        invariant store.Valid() && leases.Valid()
        invariant OffsetAfter(offset, batch[n..]) == OffsetAfter(old(offset), batch)
        invariant store.Contents() == s.txs && leases.leases == s.leases
        invariant HandleAll(c, setup, s, batch[n..]) == HandleAll(c, setup, start, batch)
      {
        var d := batch[n];
        FirstOfRest(c, setup, s, offset, batch, n);
        Poll(c, store, leases, d);
        s := Handle(c, setup, s, d);
      }
      assert batch[|batch|..] == [];
    }
  }

  /** A refusal and a timer are the protocol's own events, and end the transaction their own way. */
  lemma RefusalIsProtocol(c: A.Config, w: P.World, id: string)
    ensures var s := Stores(w.txs, w.leases);
            && Act(c, s, No(id)).txs == P.Step(c, w, P.Deny(id)).txs && Act(c, s, No(id)).leases == w.leases
            && Act(c, s, Timeout(id)).txs == P.Step(c, w, P.Expire(id)).txs && Act(c, s, Timeout(id)).leases == w.leases
  {
  }

  // --- The offset ---

  const MAX_INT64 := 0x7FFF_FFFF_FFFF_FFFF

  /** An update moves the offset forward, or keeps it, exactly when its id can be incremented. */
  lemma OffsetStepExact(offset: Int64, id: Int64)
    ensures NextOffset(offset, id) >= offset && NextOffset(offset, id) > id <==> id != MAX_INT64
  {
  }

  lemma {:induction false} OffsetAdvances(offset: Int64, ds: seq<Delivery>)
    requires forall d :: d in ds ==> d.update.updateID != MAX_INT64
    ensures OffsetAfter(offset, ds) >= offset
    ensures forall d :: d in ds ==> OffsetAfter(offset, ds) > d.update.updateID
    decreases |ds|
  {
    if ds != [] {
      var id := ds[0].update.updateID;
      assert ds[0] in ds;
      OffsetStepExact(offset, id);
      OffsetAdvances(NextOffset(offset, id), ds[1..]);
      forall d | d in ds ensures OffsetAfter(offset, ds) > d.update.updateID {
        if d != ds[0] {
          assert d in ds[1..];
        }
      }
    }
  }

  /** Over any batch, with repeats and in any order, the offset does not go back and ends above every
      id handled, exactly when no update carries the largest id. */
  lemma OffsetExact(offset: Int64, ds: seq<Delivery>)
    ensures (OffsetAfter(offset, ds) >= offset && forall d :: d in ds ==> OffsetAfter(offset, ds) > d.update.updateID)
       <==> (forall d :: d in ds ==> d.update.updateID != MAX_INT64)
  {
    if forall d :: d in ds ==> d.update.updateID != MAX_INT64 {
      OffsetAdvances(offset, ds);
    }
  }

  /** The offset is the old one or one more than an id in the batch: no update is skipped unseen. */
  lemma {:induction false} OffsetFrom(offset: Int64, ds: seq<Delivery>)
    requires forall d :: d in ds ==> d.update.updateID != MAX_INT64
    ensures OffsetAfter(offset, ds) == offset || exists d :: d in ds && OffsetAfter(offset, ds) == d.update.updateID + 1
    decreases |ds|
  {
    if ds != [] {
      assert ds[0] in ds;
      OffsetFrom(NextOffset(offset, ds[0].update.updateID), ds[1..]);
    }
  }

  /** The largest id sends the offset back to the least integer. */
  lemma OffsetWraps(offset: Int64, d: Delivery)
    requires d.update.updateID == MAX_INT64
    ensures OffsetAfter(offset, [d]) == -0x8000_0000_0000_0000
  {
    assert OffsetAfter(NextOffset(offset, MAX_INT64), [d][1..]) == NextOffset(offset, MAX_INT64);
  }

  /** Handling one batch after another is handling them as one. */
  lemma {:induction false} OffsetOverBatches(offset: Int64, a: seq<Delivery>, b: seq<Delivery>)
    ensures OffsetAfter(offset, a + b) == OffsetAfter(OffsetAfter(offset, a), b)
    decreases |a|
  {
    if a == [] {
      assert a + b == b;
    } else {
      assert (a + b)[1..] == a[1..] + b;
      OffsetOverBatches(NextOffset(offset, a[0].update.updateID), a[1..], b);
    }
  }

  // --- Outcomes ---

  /** What a decision makes of a transaction it finds pending. */
  function Decided(c: A.Config, e: A.Entry, x: Decision): A.Entry {
    match x
    case Timeout(_) => A.Finish(e, A.Expired, A.Failure(A.Timeout))
    case No(_) => A.Finish(e, A.Denied, A.Failure(A.DeniedByApprover))
    case Yes(_, ttl, _, now, signer) =>
      match A.Issue(c, e.tx.req, now + A.EffectiveTTL(ttl), signer)
      case Err(err) => A.Finish(e, A.Denied, A.Failure(err))
      case Ok(r) => A.Finish(e, A.Approved, r.(leaseExpiresAt := now + A.EffectiveTTL(ttl)))
  }

  function FirstFor(xs: seq<Decision>, id: string): Option<Decision> {
    if xs == [] then None else if xs[0].id == id then Some(xs[0]) else FirstFor(xs[1..], id)
  }

  /** A decision about another transaction leaves this one alone. */
  lemma ElsewhereUntouched(c: A.Config, s: Stores, x: Decision, id: string)
    requires id in s.txs && x.id != id
    ensures id in Act(c, s, x).txs && Act(c, s, x).txs[id] == s.txs[id]
  {
  }

  lemma ApproveDecides(c: A.Config, s: Stores, x: Decision)
    requires x.Yes? && A.InState(s.txs, x.id, A.Pending)
    ensures var s' := Act(c, s, x);
            x.id in s'.txs && s'.txs[x.id] == Decided(c, s.txs[x.id], x)
  {
    var (claimed, ok) := A.Claim(s.txs, x.id);
    assert A.InState(claimed, x.id, A.Approving);
  }

  /** The decision that meets a transaction pending settles it. */
  lemma PendingIsDecided(c: A.Config, s: Stores, x: Decision)
    requires A.InState(s.txs, x.id, A.Pending)
    ensures var s' := Act(c, s, x);
            x.id in s'.txs && s'.txs[x.id] == Decided(c, s.txs[x.id], x) && s'.txs[x.id].result.Some?
  {
    if x.Yes? {
      ApproveDecides(c, s, x);
    }
  }

  /** A repeated or late decision, or a stale timer, changes neither transactions nor leases. */
  lemma ReplayChangesNothing(c: A.Config, s: Stores, x: Decision)
    requires !A.InState(s.txs, x.id, A.Pending)
    ensures Act(c, s, x) == s
  {
  }

  lemma {:induction false} DecidedStays(c: A.Config, s: Stores, xs: seq<Decision>, id: string)
    requires id in s.txs && s.txs[id].result.Some?
    ensures id in ActAll(c, s, xs).txs && ActAll(c, s, xs).txs[id] == s.txs[id]
    decreases |xs|
  {
    if xs != [] {
      if xs[0].id == id {
        ReplayChangesNothing(c, s, xs[0]);
      } else {
        ElsewhereUntouched(c, s, xs[0], id);
      }
      DecidedStays(c, Act(c, s, xs[0]), xs[1..], id);
    }
  }

  /** Whatever the order and the repeats, a pending transaction ends as the first decision about it
      says, and stays pending when there is none. */
  lemma {:induction false} FirstDecisionWins(c: A.Config, s: Stores, xs: seq<Decision>, id: string)
    requires A.InState(s.txs, id, A.Pending)
    ensures var first, end := FirstFor(xs, id), ActAll(c, s, xs);
            id in end.txs && end.txs[id] == if first.None? then s.txs[id] else Decided(c, s.txs[id], first.value)
    decreases |xs|
  {
    if xs != [] {
      if xs[0].id == id {
        PendingIsDecided(c, s, xs[0]);
        DecidedStays(c, Act(c, s, xs[0]), xs[1..], id);
      } else {
        ElsewhereUntouched(c, s, xs[0], id);
        FirstDecisionWins(c, Act(c, s, xs[0]), xs[1..], id);
      }
    }
  }

  /** Whether a decision has a credential made. */
  predicate Issues(c: A.Config, s: Stores, x: Decision) {
    x.Yes? && A.InState(s.txs, x.id, A.Pending)
        && A.Issue(c, s.txs[x.id].tx.req, x.now + A.EffectiveTTL(x.ttl), x.signer).Ok?
  }

  /** How many credentials a run has made for one transaction. */
  function Issuances(c: A.Config, s: Stores, xs: seq<Decision>, id: string): nat
    decreases |xs|
  {
    if xs == [] then 0
    else (if xs[0].id == id && Issues(c, s, xs[0]) then 1 else 0) + Issuances(c, Act(c, s, xs[0]), xs[1..], id)
  }

  lemma {:induction false} NoneAfterResult(c: A.Config, s: Stores, xs: seq<Decision>, id: string)
    requires id in s.txs && s.txs[id].result.Some?
    ensures Issuances(c, s, xs, id) == 0
    decreases |xs|
  {
    if xs != [] {
      if xs[0].id == id {
        ReplayChangesNothing(c, s, xs[0]);
      } else {
        ElsewhereUntouched(c, s, xs[0], id);
      }
      NoneAfterResult(c, Act(c, s, xs[0]), xs[1..], id);
    }
  }

  /** However often its buttons are pressed, a transaction has one credential made when the first
      decision approves it and the signer agrees, and none otherwise. */
  lemma {:induction false} OneIssuance(c: A.Config, s: Stores, xs: seq<Decision>, id: string)
    requires A.InState(s.txs, id, A.Pending)
    ensures var first := FirstFor(xs, id);
            Issuances(c, s, xs, id) == if first.Some? && Issues(c, s, first.value) then 1 else 0
    decreases |xs|
  {
    if xs != [] {
      if xs[0].id == id {
        PendingIsDecided(c, s, xs[0]);
        NoneAfterResult(c, Act(c, s, xs[0]), xs[1..], id);
      } else {
        ElsewhereUntouched(c, s, xs[0], id);
        FirstIsAbout(xs[1..], id);
        OneIssuance(c, Act(c, s, xs[0]), xs[1..], id);
      }
    }
  }

  lemma {:induction false} FirstIsAbout(xs: seq<Decision>, id: string)
    ensures FirstFor(xs, id).Some? ==> FirstFor(xs, id).value.id == id
  {
    if xs != [] {
      FirstIsAbout(xs[1..], id);
    }
  }

  // --- What a press means ---

  /** The poller is set up for a chat and a list of users. */
  predicate SetUpFor(p: Setup, chat: Int64, users: seq<Int64>) {
    p.chatID == Itoa(chat) && p.users == C.Csv(users)
  }

  /** The press came from the chat, by a listed user or by the one user of a private chat. */
  predicate MayPress(press: Press, chat: Int64, users: seq<Int64>) {
    press.chat == Some(chat) && (press.from in users || (press.from > 0 && press.from == chat))
  }

  lemma PressChecked(p: Setup, chat: Int64, users: seq<Int64>, press: Press)
    requires SetUpFor(p, chat, users) && press.chat.Some?
    ensures C.ChatAllowed(p.chatID, press.chat.value) && C.UserAllowed(p.chatID, p.users, press.from) <==>
            MayPress(press, chat, users)
  {
    C.ChatExact("", chat, "", press.chat.value);
    assert "" + Itoa(chat) + "" == Itoa(chat);
    C.UserExact(chat, users, press.from);
  }

  /** A press by anyone else, or from anywhere else, or without a message, decides nothing. */
  lemma StrangersDecideNothing(p: Setup, chat: Int64, users: seq<Int64>, d: Delivery)
    requires SetUpFor(p, chat, users) && (d.update.press.Some? ==> !MayPress(d.update.press.value, chat, users))
    ensures DecisionOf(p, d) == None
  {
    if d.update.press.Some? && d.update.press.value.chat.Some? {
      PressChecked(p, chat, users, d.update.press.value);
    }
  }

  /** A press on Deny is the refusal of its transaction, and nothing but such a press is one. */
  lemma DenyPress(p: Setup, chat: Int64, users: seq<Int64>, d: Delivery, id: string)
    requires SetUpFor(p, chat, users) && d.update.press.Some? && MayPress(d.update.press.value, chat, users)
    ensures DecisionOf(p, d) == Some(No(id)) <==> ':' !in id && "tx_" <= id && d.update.press.value.data == "deny:" + id
  {
    PressChecked(p, chat, users, d.update.press.value);
    C.DenyExact(d.update.press.value.data, p.allowed, id);
  }

  /** A press on an approve button approves its transaction for the time on it, in the name of the
      chat; a time that is not positive becomes the first configured one. */
  lemma ApprovePress(p: Setup, chat: Int64, users: seq<Int64>, d: Delivery, id: string, sec: Int64)
    requires SetUpFor(p, chat, users) && d.update.press.Some? && MayPress(d.update.press.value, chat, users)
    requires ':' !in id && "tx_" <= id && d.update.press.value.data == "approve:" + id + ":" + Itoa(sec)
    ensures sec !in p.allowed ==> DecisionOf(p, d) == None
    ensures sec in p.allowed && 0 < sec <= 9_223_372_036 ==>
              DecisionOf(p, d) == Some(Yes(id, sec * 1_000_000_000, "telegram:" + Itoa(chat), d.now, d.signer))
    ensures sec in p.allowed && sec == 0 ==>
              DecisionOf(p, d) == Some(Yes(id, C.Duration(p.allowed[0]), "telegram:" + Itoa(chat), d.now, d.signer))
  {
    var data := d.update.press.value.data;
    PressChecked(p, chat, users, d.update.press.value);
    assert data == C.ApproveData(id, sec) by {
      assert C.APPROVE + ":" == "approve:";
    }
    C.ButtonsParse(id, sec, p.allowed);
    if 0 <= sec <= 9_223_372_036 {
      C.DurationInRange(sec);
    }
  }

  /** Without a time the first configured one counts, or five minutes. */
  lemma BareApprovePress(p: Setup, chat: Int64, users: seq<Int64>, d: Delivery, id: string)
    requires SetUpFor(p, chat, users) && d.update.press.Some? && MayPress(d.update.press.value, chat, users)
    requires ':' !in id && "tx_" <= id && d.update.press.value.data == "approve:" + id
    ensures var ttl := if p.allowed == [] then 300 * SECOND else C.Duration(p.allowed[0]);
            DecisionOf(p, d) == Some(Yes(id, ttl, "telegram:" + Itoa(chat), d.now, d.signer))
  {
    PressChecked(p, chat, users, d.update.press.value);
    C.ApproveExact(d.update.press.value.data, p.allowed, id, 0);
    C.ChosenTTLExact(0, p.allowed);
  }

  /** No press is a timeout. */
  lemma NoPressTimesOut(p: Setup, d: Delivery)
    ensures DecisionOf(p, d).Some? ==> !DecisionOf(p, d).value.Timeout?
  {
  }

  /** So a denied transaction ends denied, with no credential, and no lease is put. */
  lemma DeniedByPress(c: A.Config, p: Setup, chat: Int64, users: seq<Int64>, s: Stores, d: Delivery, id: string)
    requires SetUpFor(p, chat, users) && d.update.press.Some? && MayPress(d.update.press.value, chat, users)
    requires ':' !in id && "tx_" <= id && d.update.press.value.data == "deny:" + id
    requires id in s.txs && s.txs[id].tx.state.Pending? && s.txs[id].result.None?
    ensures var s' := Handle(c, p, s, d);
            && s'.leases == s.leases && id in s'.txs && s'.txs[id].tx.state == A.Denied
            && s'.txs[id].result == Some(A.Result("", "", 0, 0, Some(A.DeniedByApprover)))
  {
    DenyPress(p, chat, users, d, id);
  }

  /** And one approved by a press ends with what the signer answers, valid for the time chosen. */
  lemma ApprovedByPress(c: A.Config, p: Setup, s: Stores, d: Delivery, x: Decision, r: A.Result)
    requires DecisionOf(p, d) == Some(x) && x.Yes? && x.ttl > 0
    requires x.id in s.txs && s.txs[x.id].tx.state.Pending? && s.txs[x.id].result.None?
    requires A.Issue(c, s.txs[x.id].tx.req, x.now + x.ttl, x.signer) == Ok(r)
    ensures var s' := Handle(c, p, s, d);
            && x.id in s'.txs && s'.txs[x.id].tx.state == A.Approved
            && s'.txs[x.id].result == Some(r.(leaseExpiresAt := x.now + x.ttl))
  {
    SignedDecision(c, s, x, r);
  }

  lemma SignedDecision(c: A.Config, s: Stores, x: Decision, r: A.Result)
    requires x.Yes? && x.ttl > 0 && x.id in s.txs && s.txs[x.id].tx.state.Pending? && s.txs[x.id].result.None?
    requires A.Issue(c, s.txs[x.id].tx.req, x.now + x.ttl, x.signer) == Ok(r)
    ensures var s' := Act(c, s, x);
            && x.id in s'.txs && s'.txs[x.id].tx.state == A.Approved
            && s'.txs[x.id].result == Some(r.(leaseExpiresAt := x.now + x.ttl))
  {
    ApproveDecides(c, s, x);
  }
}
