/** The store of approval transactions. Every critical section of its mutex is one operation here. */
module Approval {
  import opened Prelude
  import Base64
  import Lease

  datatype State = Pending | Approving | Approved | Denied | Expired

  predicate Terminal(s: State) {
    s.Approved? || s.Denied? || s.Expired?
  }

  datatype Error = DeniedByApprover | Timeout | SignerNotReady | AgentSignDataRequired | AmbiguousSigner | BadSignData
      | SignerError

  /** What a sign request asks for; disableLease is set for destinations the client only reports. */
  datatype Request = Request(targetUser: string, targetIP: string, publicKey: string, sourceIP: string,
                             clientCertFP: string, agentSignData: string, hostKeyFP: string, destinationFP: string,
                             disableLease: bool)

  datatype Transaction = Transaction(id: string, req: Request, state: State, createdAt: Time)

  datatype Result = Result(cert: string, signature: string, expiresAt: Time, leaseExpiresAt: Time, err: Option<Error>)

  function Failure(e: Error): Result {
    Result("", "", 0, 0, Some(e))
  }

  /** A transaction with its result, its one-slot result channel and its registered waiters. */
  datatype Entry = Entry(tx: Transaction, result: Option<Result>, slot: Option<Result>, closed: bool, waiters: int)

  type Table = map<string, Entry>

  // --- The operations on the table of live transactions ---

  function Opened(id: string, req: Request, now: Time): Entry {
    Entry(Transaction(id, req, Pending, now), None, None, false, 0)
  }

  /** A transaction born approved: its channel is filled and closed. */
  function Instant(id: string, req: Request, res: Result, now: Time): Entry {
    Entry(Transaction(id, req, Approved, now), Some(res), Some(res), true, 0)
  }

  predicate InState(t: Table, id: string, s: State) {
    id in t && t[id].result.None? && t[id].tx.state == s
  }

  function Claim(t: Table, id: string): (Table, bool) {
    if InState(t, id, Pending) then (t[id := t[id].(tx := t[id].tx.(state := Approving))], true) else (t, false)
  }

  /** Whether a finish can put its result in the channel; otherwise the select's default drops it. */
  predicate CanSend(e: Entry) {
    e.slot.None? && !e.closed
  }

  /** finishLocked. */
  function Finish(e: Entry, s: State, res: Result): Entry {
    e.(tx := e.tx.(state := s), result := Some(res), slot := if CanSend(e) then Some(res) else e.slot)
  }

  /** finishPending and finishClaimed differ in the state they finish from. */
  function FinishFrom(t: Table, id: string, from: State, s: State, res: Result): (Table, bool) {
    if InState(t, id, from) then (t[id := Finish(t[id], s, res)], true) else (t, false)
  }

  datatype Waiting = Absent | Joined | Copied(res: Result)

  /** waitResult: a finished transaction hands out a private copy, an open one registers the waiter. */
  function WaitOn(t: Table, id: string): (Table, Waiting) {
    if id !in t then (t, Absent)
    else if t[id].result.Some? then (t, Copied(t[id].result.value))
    else (t[id := t[id].(waiters := t[id].waiters + 1)], Joined)
  }

  function CancelWait(t: Table, id: string): Table {
    if id !in t then t
    else if t[id].waiters - 1 <= 0 then t - {id}
    else t[id := t[id].(waiters := t[id].waiters - 1)]
  }

  function Take(e: Entry): (Entry, Option<Result>) {
    (e.(slot := None), e.slot)
  }

  // --- What every operation keeps of every transaction ---

  predicate Follows(s: State, s': State) {
    s' == s || (s.Pending? && (s'.Denied? || s'.Expired? || s'.Approving?))
        || (s.Approving? && (s'.Approved? || s'.Denied?))
  }

  /** Results belong to terminal states, the channel never holds anything but the result, and it
      is empty and open until there is one. */
  predicate Sound(e: Entry) {
    && (e.result.Some? <==> Terminal(e.tx.state))
    && (e.slot.Some? ==> e.slot == e.result)
    && (e.result.None? ==> e.slot.None? && !e.closed)
  }

  /** One step in the life of a transaction: only the state moves, along the diagram, and a result
      once set is final. */
  predicate Evolves(e: Entry, e': Entry) {
    && e'.tx == e.tx.(state := e'.tx.state)
    && Follows(e.tx.state, e'.tx.state)
    && (e.result.Some? ==> e'.result == e.result && e'.tx.state == e.tx.state)
    && (e.closed ==> e'.closed)
  }

  predicate TableEvolves(t: Table, t': Table) {
    forall id :: id in t && id in t' ==> Sound(t[id]) ==> Sound(t'[id]) && Evolves(t[id], t'[id])
  }

  lemma ClaimEvolves(t: Table, id: string)
    ensures TableEvolves(t, Claim(t, id).0) && Claim(t, id).0.Keys == t.Keys
  {
  }

  lemma FinishEvolves(t: Table, id: string, from: State, s: State, res: Result)
    requires (from.Pending? && (s.Denied? || s.Expired?)) || (from.Approving? && (s.Denied? || s.Approved?))
    ensures TableEvolves(t, FinishFrom(t, id, from, s, res).0) && FinishFrom(t, id, from, s, res).0.Keys == t.Keys
  {
  }

  lemma WaitEvolves(t: Table, id: string)
    ensures TableEvolves(t, WaitOn(t, id).0) && WaitOn(t, id).0.Keys == t.Keys
  {
  }

  lemma CancelEvolves(t: Table, id: string)
    ensures TableEvolves(t, CancelWait(t, id)) && t.Keys - {id} <= CancelWait(t, id).Keys <= t.Keys
  {
  }

  /** A sound transaction without a result can always send, so no result is ever dropped. */
  lemma NeverDropped(e: Entry, s: State, res: Result)
    requires Sound(e) && e.result.None? && Terminal(s)
    ensures CanSend(e) && Sound(Finish(e, s, res)) && Finish(e, s, res).slot == Some(res)
  {
  }

  // --- Credentials ---

  datatype Mode = LocalCA | LocalKey

  datatype Config = Config(mode: Mode, issuer: bool, keySigner: bool, leases: bool)

  /** What the CA is asked to certify. */
  datatype CertRequest = CertRequest(publicKey: string, targetUser: string, targetIP: string, sourceIP: string,
                                     until: Time)

  /** What the signers would answer at some moment: the CA a certificate, the key with a given
      fingerprint a signature over given bytes. */
  datatype Signer = Signer(certify: CertRequest -> Option<string>, agent: (string, Bytes) -> Option<Bytes>)

  /** issueForTransaction. The CA reports the requested end of validity. */
  function Issue(c: Config, req: Request, until: Time, signer: Signer): Outcome<Result, Error> {
    if c.mode.LocalKey? then IssueSignature(c, req, until, signer) else IssueCert(c, req, until, signer)
  }

  function IssueSignature(c: Config, req: Request, until: Time, signer: Signer): Outcome<Result, Error> {
    if req.agentSignData == "" then Err(AgentSignDataRequired)
    else if !c.keySigner then Err(SignerNotReady)
    else
      match Base64.StdDecode(req.agentSignData)
      case None => Err(BadSignData)
      case Some(data) =>
        if req.hostKeyFP == "" then Err(AmbiguousSigner)
        else
          match signer.agent(req.hostKeyFP, data)
          case None => Err(SignerError)
          case Some(blob) => Ok(Result("", Base64.StdEncode(blob), until, 0, None))
  }

  function IssueCert(c: Config, req: Request, until: Time, signer: Signer): Outcome<Result, Error> {
    if !c.issuer then Err(SignerNotReady)
    else
      match signer.certify(CertRequest(req.publicKey, req.targetUser, req.targetIP, req.sourceIP, until))
      case None => Err(SignerError)
      case Some(cert) => Ok(Result(cert, "", until, 0, None))
  }

  function LookupOf(req: Request): Lease.LookupKey {
    Lease.LookupKey(req.clientCertFP, req.targetUser, req.targetIP, req.sourceIP, req.hostKeyFP, req.destinationFP)
  }

  /** The two requests are of one client from one address, for one user on one target, one hosted key
      and one destination. */
  predicate SameSession(a: Request, b: Request) {
    && a.clientCertFP == b.clientCertFP && a.sourceIP == b.sourceIP
    && a.targetUser == b.targetUser && a.targetIP == b.targetIP
    && a.hostKeyFP == b.hostKeyFP && a.destinationFP == b.destinationFP
  }

  /** Two requests have one lookup key exactly when they agree in all six fields. */
  lemma LookupExact(a: Request, b: Request)
    ensures LookupOf(a) == LookupOf(b) <==> SameSession(a, b)
  {
  }

  const DEFAULT_TTL: Time := 5 * MINUTE

  /** Approve replaces a ttl that is not positive. */
  function EffectiveTTL(ttl: Time): Time {
    if ttl <= 0 then DEFAULT_TTL else ttl
  }

  predicate LeaseAllowed(c: Config, req: Request, approver: string) {
    c.leases && approver != "" && req.clientCertFP != "" && !req.disableLease
  }

  // --- The store as it is built ---

  class TxEntry {
    var tx: Transaction
    var result: Option<Result>
    var slot: Option<Result>
    var closed: bool
    var waiters: int

    function Value(): Entry
      reads this
    {
      Entry(tx, result, slot, closed, waiters)
    }

    constructor (e: Entry)
      ensures Value() == e
    {
      tx, result, slot, closed, waiters := e.tx, e.result, e.slot, e.closed, e.waiters;
    }

    /** finishLocked with its non-blocking send. */
    method FinishLocked(s: State, res: Result)
      modifies this
      ensures Value() == Finish(old(Value()), s, res)
    {
      tx := tx.(state := s);
      result := Some(res);
      if slot.None? && !closed {
        slot := Some(res);
      }
    }

    /** A waiter's receive; None when the channel is empty and the waiter would block. */
    method Receive() returns (r: Option<Result>)
      modifies this
      ensures (Value(), r) == Take(old(Value()))
    {
      r := slot;
      slot := None;
    }
  }

  class Store {
    var txs: map<string, TxEntry>

    /** No two ids share an entry. */
    ghost predicate Valid()
      reads this
    {
      forall i, j :: i in txs && j in txs && i != j ==> txs[i] != txs[j]
    }

    ghost function Entries(): set<object>
      reads this
    {
      set id | id in txs :: txs[id]
    }

    ghost function Contents(): Table
      reads this, Entries()
    {
      map id | id in txs :: txs[id].Value()
    }

    constructor ()
      ensures Valid() && Contents() == map[]
    {
      txs := map[];
    }

    method CreateBound(id: string, req: Request, now: Time)
      requires Valid() && id !in txs
      modifies this
      ensures Valid() && Contents() == old(Contents())[id := Opened(id, req, now)]
    {
      var entry := new TxEntry(Opened(id, req, now));
      txs := txs[id := entry];
    }

    method CreateInstantApproved(id: string, req: Request, res: Result, now: Time)
      requires Valid() && id !in txs
      modifies this
      ensures Valid() && Contents() == old(Contents())[id := Instant(id, req, res, now)]
    {
      var entry := new TxEntry(Instant(id, req, res, now));
      txs := txs[id := entry];
    }

    /** claimApproval returns the entry it claimed, if any. */
    method ClaimApproval(id: string) returns (entry: Option<TxEntry>)
      requires Valid()
      modifies Entries()
      ensures Valid() && Contents() == Claim(old(Contents()), id).0 && entry.Some? == Claim(old(Contents()), id).1
      ensures entry.Some? ==> id in txs && entry.value == txs[id]
    {
      if id !in txs || txs[id].result.Some? || txs[id].tx.state != Pending {
        return None;
      }
      txs[id].tx := txs[id].tx.(state := Approving);
      return Some(txs[id]);
    }

    method FinishPending(id: string, s: State, res: Result)
      requires Valid()
      modifies Entries()
      ensures Valid() && Contents() == FinishFrom(old(Contents()), id, Pending, s, res).0
    {
      if id !in txs || txs[id].result.Some? || txs[id].tx.state != Pending {
        return;
      }
      txs[id].FinishLocked(s, res);
    }

    method FinishClaimed(id: string, s: State, res: Result) returns (ok: bool)
      requires Valid()
      modifies Entries()
      ensures Valid() && Contents() == FinishFrom(old(Contents()), id, Approving, s, res).0
      ensures ok == FinishFrom(old(Contents()), id, Approving, s, res).1
    {
      if id !in txs || txs[id].result.Some? || txs[id].tx.state != Approving {
        return false;
      }
      txs[id].FinishLocked(s, res);
      return true;
    }

    method Deny(id: string)
      requires Valid()
      modifies Entries()
      ensures Valid() && Contents() == FinishFrom(old(Contents()), id, Pending, Denied, Failure(DeniedByApprover)).0
    {
      FinishPending(id, Denied, Failure(DeniedByApprover));
    }

    method Expire(id: string)
      requires Valid()
      modifies Entries()
      ensures Valid() && Contents() == FinishFrom(old(Contents()), id, Pending, Expired, Failure(Timeout)).0
    {
      FinishPending(id, Expired, Failure(Timeout));
    }

    method WaitResult(id: string) returns (w: Waiting)
      requires Valid()
      modifies Entries()
      ensures Valid() && Contents() == WaitOn(old(Contents()), id).0 && w == WaitOn(old(Contents()), id).1
    {
      if id !in txs {
        return Absent;
      }
      if txs[id].result.Some? {
        return Copied(txs[id].result.value);
      }
      txs[id].waiters := txs[id].waiters + 1;
      return Joined;
    }

    method Cancel(id: string)
      requires Valid()
      modifies this, Entries()
      ensures Valid() && Contents() == CancelWait(old(Contents()), id)
    {
      if id !in txs {
        return;
      }
      txs[id].waiters := txs[id].waiters - 1;
      if txs[id].waiters <= 0 {
        txs := txs - {id};
      }
    }

    method Remove(id: string)
      requires Valid()
      modifies this
      ensures Valid() && Contents() == old(Contents()) - {id}
    {
      txs := txs - {id};
    }
  }
}
