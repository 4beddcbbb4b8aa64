/** From the sign handler to the credential: what hosted keys sign and the CA certifies in any run of
    the protocol. */
module SignRuns {
  import opened Prelude
  import opened Approval
  import opened Protocol
  import opened ProtocolHistory
  import opened ProtocolSafety
  import opened ProtocolRuns
  import Base64
  import Fingerprint
  import H = SignHandler
  import Lease
  import U = UserAuth

  // --- Requests enter through the handler ---

  /** The bytes are an intended payload for the approved user, the hosted key and the destination. */
  ghost predicate Faithful(crypto: U.Crypto, bytes: string -> Bytes, req: Request, data: Bytes,
                           key: U.PublicKey, host: U.PublicKey, sid: Bytes)
  {
    && U.IsIntended(data, sid, bytes(req.targetUser), key, host)
    && Base64.RawEncode(crypto.sha256(key.wire)) == Fingerprint.Normalize(req.hostKeyFP)
    && Base64.RawEncode(crypto.sha256(host.wire)) == req.destinationFP
  }

  /** The destination host signed the session id. */
  ghost predicate HostSpoke(crypto: U.Crypto, host: U.PublicKey, sid: Bytes) {
    exists sig: U.Signature :: crypto.verify(host, sid, sig)
  }

  ghost predicate Sanctioned(crypto: U.Crypto, bytes: string -> Bytes, req: Request, data: Bytes) {
    exists key: U.PublicKey, host: U.PublicKey, sid: Bytes ::
      Faithful(crypto, bytes, req, data, key, host, sid) && (req.disableLease || HostSpoke(crypto, host, sid))
  }

  /** The pool of signers may change from request to request; the handler took this one at some time. */
  ghost predicate Taken(crypto: U.Crypto, bytes: string -> Bytes, req: Request) {
    exists s: H.Server, a: H.Asked, p: H.Peer ::
      s.mode.LocalKey? && H.Pooled(s) && s.crypto == crypto && s.bytes == bytes && H.Vet(s, a, p) == Ok(req)
  }

  lemma ProvenSpoke(c: U.Crypto, b: U.Binding)
    requires U.Proven(c, b).Some?
    ensures HostSpoke(c, U.Proven(c, b).value.0, U.Proven(c, b).value.1)
  {
    var sig := U.ReadSignature(U.DecodeRequired(b.signature).value).value;
    assert c.verify(U.Proven(c, b).value.0, U.Proven(c, b).value.1, sig);
  }

  lemma TakenIsSanctioned(crypto: U.Crypto, bytes: string -> Bytes, req: Request)
    requires Taken(crypto, bytes, req)
    ensures Base64.StdDecode(req.agentSignData).Some?
    ensures Sanctioned(crypto, bytes, req, Base64.StdDecode(req.agentSignData).value)
  {
    var s: H.Server, a: H.Asked, p: H.Peer :|
      s.mode.LocalKey? && H.Pooled(s) && s.crypto == crypto && s.bytes == bytes && H.Vet(s, a, p) == Ok(req);
    var key, host, sid := H.VettedIsSanctioned(s, a, p);
    if H.SessionBound(a) {
      ProvenSpoke(crypto, a.binding);
    }
    assert Faithful(crypto, bytes, req, Base64.StdDecode(req.agentSignData).value, key, host, sid);
  }

  // --- Requests through a run ---

  ghost predicate Enters(P: Request -> bool, e: Event) {
    (e.Create? ==> P(e.req)) && (e.Find? ==> P(e.req))
  }

  ghost predicate Holds(P: Request -> bool, w: World) {
    && (forall x :: x in w.log && (x.DidCreate? || x.DidReissue?) ==> P(x.req))
    && (forall k :: k in w.reuses ==> P(w.reuses[k].req))
  }

  lemma RecordHolds(P: Request -> bool, c: Config, w: World, e: Event)
    requires Holds(P, w) && Enters(P, e)
    ensures var r := Do(c, w, e).1;
            r.Some? && (r.value.DidCreate? || r.value.DidReissue?) ==> P(r.value.req)
  {
  }

  lemma ReuseHolds(P: Request -> bool, c: Config, w: World, e: Event, k: nat)
    requires Holds(P, w) && Enters(P, e) && Reuser(e) == Some(k) && k in Do(c, w, e).0.reuses
    ensures P(Do(c, w, e).0.reuses[k].req)
  {
  }

  lemma HoldsStep(P: Request -> bool, c: Config, w: World, e: Event)
    requires Holds(P, w) && Enters(P, e)
    ensures Holds(P, Step(c, w, e))
  {
    var w' := Step(c, w, e);
    RecordHolds(P, c, w, e);
    ReusesFrame(c, w, e);
    forall k | k in w'.reuses ensures P(w'.reuses[k].req) {
      if Reuser(e) == Some(k) {
        ReuseHolds(P, c, w, e, k);
      }
    }
  }

  lemma {:induction false} HoldsRun(P: Request -> bool, c: Config, events: seq<Event>)
    requires forall e :: e in events ==> Enters(P, e)
    ensures Holds(P, Run(c, events))
  {
    if events != [] {
      HoldsRun(P, c, events[..|events| - 1]);
      HoldsStep(P, c, Run(c, events[..|events| - 1]), events[|events| - 1]);
    }
  }

  // --- What hosted keys sign ---

  /** Every request of the run, on the slow path and on the fast one, came through the handler. */
  ghost predicate ThroughHandler(crypto: U.Crypto, bytes: string -> Bytes, events: seq<Event>) {
    forall e :: e in events ==> (e.Create? ==> Taken(crypto, bytes, e.req)) && (e.Find? ==> Taken(crypto, bytes, e.req))
  }

  lemma AllTaken(c: Config, crypto: U.Crypto, bytes: string -> Bytes, events: seq<Event>, i: nat)
    requires ThroughHandler(crypto, bytes, events) && i < |Log(c, events)|
    requires Log(c, events)[i].DidCreate? || Log(c, events)[i].DidReissue?
    ensures var req := Log(c, events)[i].req;
            && Taken(crypto, bytes, req) && Base64.StdDecode(req.agentSignData).Some?
            && Sanctioned(crypto, bytes, req, Base64.StdDecode(req.agentSignData).value)
  {
    var P := (r: Request) => Taken(crypto, bytes, r);
    HoldsRun(P, c, events);
    assert Log(c, events)[i] in Log(c, events);
    TakenIsSanctioned(crypto, bytes, Log(c, events)[i].req);
  }

  /** The hosted key was asked for data and nothing else decides the outcome: its answer, in base64,
      is the signature of the result. */
  predicate SignedBy(signer: Signer, req: Request, data: Bytes, res: Result) {
    && Base64.StdDecode(req.agentSignData) == Some(data)
    && signer.agent(req.hostKeyFP, data).Some? && Base64.StdDecode(res.signature) == signer.agent(req.hostKeyFP, data)
  }

  /** A hosted key is asked for the decoded sign data of the request under its fingerprint, and its
      answer, in base64, is all there is to the result. */
  lemma SignatureExact(c: Config, req: Request, until: Time, signer: Signer, data: Bytes)
    requires c.mode.LocalKey? && c.keySigner && req.hostKeyFP != "" && req.agentSignData != ""
    requires Base64.StdDecode(req.agentSignData) == Some(data)
    ensures Issue(c, req, until, signer) ==
            match signer.agent(req.hostKeyFP, data)
            case None => Err(SignerError)
            case Some(blob) => Ok(Result("", Base64.StdEncode(blob), until, 0, None))
  {
  }

  /** What the key would have answered to other bytes, or another key to these, makes no difference. */
  lemma OneQuestion(c: Config, req: Request, until: Time, signer: Signer, other: Signer)
    requires c.mode.LocalKey?
    requires var data := Base64.StdDecode(req.agentSignData);
             data.Some? ==> other.agent(req.hostKeyFP, data.value) == signer.agent(req.hostKeyFP, data.value)
    ensures Issue(c, req, until, other) == Issue(c, req, until, signer)
  {
  }

  /** What stands in the way of asking is told apart, in this order. */
  lemma UnaskedKey(c: Config, req: Request, until: Time, signer: Signer)
    requires c.mode.LocalKey?
    ensures req.agentSignData == "" ==> Issue(c, req, until, signer) == Err(AgentSignDataRequired)
    ensures req.agentSignData != "" && !c.keySigner ==> Issue(c, req, until, signer) == Err(SignerNotReady)
    ensures req.agentSignData != "" && c.keySigner ==>
              && (Base64.StdDecode(req.agentSignData).None? ==> Issue(c, req, until, signer) == Err(BadSignData))
              && (Base64.StdDecode(req.agentSignData).Some? && req.hostKeyFP == "" ==>
                    Issue(c, req, until, signer) == Err(AmbiguousSigner))
  {
  }

  /** The CA is asked to certify the request's key for its user, target and source address until the
      given end, and its answer is the certificate. */
  lemma CertificateExact(c: Config, req: Request, until: Time, signer: Signer, q: CertRequest)
    requires c.mode.LocalCA?
    requires q.publicKey == req.publicKey && q.targetUser == req.targetUser && q.targetIP == req.targetIP
    requires q.sourceIP == req.sourceIP && q.until == until
    ensures !c.issuer ==> Issue(c, req, until, signer) == Err(SignerNotReady)
    ensures c.issuer ==>
              Issue(c, req, until, signer) ==
              match signer.certify(q)
              case None => Err(SignerError)
              case Some(cert) => Ok(Result(cert, "", until, 0, None))
  {
  }

  lemma IssuedIsSigned(c: Config, req: Request, until: Time, signer: Signer)
    requires c.mode.LocalKey? && Issue(c, req, until, signer).Ok?
    ensures Base64.StdDecode(req.agentSignData).Some?
    ensures SignedBy(signer, req, Base64.StdDecode(req.agentSignData).value, Issue(c, req, until, signer).value)
  {
    Base64.StdRoundTrip(signer.agent(req.hostKeyFP, Base64.StdDecode(req.agentSignData).value).value);
  }

  /** The event behind an issuance is the signing of that job. */
  lemma SignedInRun(c: Config, events: seq<Event>, i: nat) returns (n: nat, data: Bytes)
    requires c.mode.LocalKey? && i < |Log(c, events)| && Log(c, events)[i].DidIssue?
    ensures n < |events| && events[n].Sign? && events[n].k == Log(c, events)[i].job.k
    ensures SignedBy(events[n].signer, Log(c, events)[i].job.req, data, Log(c, events)[i].res)
  {
    n := MadeBy(c, events, i);
    var w := Run(c, events[..n]);
    SignSource(c, w, events[n]);
    var k, now, signer := events[n].k, events[n].now, events[n].signer;
    var job := w.workers[k].job;
    JobNumber(c, events[..n], k);
    IssuedIsSigned(c, job.req, now + job.ttl, signer);
    data := Base64.StdDecode(job.req.agentSignData).value;
  }

  lemma JobNumber(c: Config, events: seq<Event>, k: nat)
    requires k in Run(c, events).workers
    ensures Run(c, events).workers[k].job.k == k
  {
    RunInv(c, events);
    assert JobOk(Run(c, events), k, Run(c, events).workers[k]);
  }

  lemma SignSource(c: Config, w: World, e: Event)
    requires Do(c, w, e).1.Some? && Do(c, w, e).1.value.DidIssue?
    ensures e.Sign? && e.k in w.workers
    ensures var job := w.workers[e.k].job;
            && Issue(c, job.req, e.now + job.ttl, e.signer).Ok?
            && Do(c, w, e).1.value == DidIssue(job, e.now, Issue(c, job.req, e.now + job.ttl, e.signer).value)
  {
  }

  lemma ReissueSource(c: Config, w: World, e: Event)
    requires Do(c, w, e).1.Some? && Do(c, w, e).1.value.DidReissue?
    ensures var r := Do(c, w, e).1.value;
            && e.Reissue?
            && var issued := Issue(c, r.req, e.now + Lease.Remaining(r.lease, r.measuredAt), e.signer);
               issued.Ok? && r.res == issued.value.(leaseExpiresAt := r.lease.expiresAt)
  {
  }

  /** Whatever a hosted key signs for an approval, in any run, is a payload the handler sanctioned:
      the bytes it was asked for are intended for the approved user, that key and the destination. */
  lemma ApprovedSignaturesAreSanctioned(c: Config, crypto: U.Crypto, bytes: string -> Bytes, events: seq<Event>, i: nat)
    returns (n: nat, data: Bytes)
    requires c.mode.LocalKey? && ThroughHandler(crypto, bytes, events)
    requires i < |Log(c, events)| && Log(c, events)[i].DidIssue?
    ensures n < |events| && events[n].Sign? && events[n].k == Log(c, events)[i].job.k
    ensures SignedBy(events[n].signer, Log(c, events)[i].job.req, data, Log(c, events)[i].res)
    ensures Sanctioned(crypto, bytes, Log(c, events)[i].job.req, data)
  {
    n, data := SignedInRun(c, events, i);
    IssuedForTaken(c, crypto, bytes, events, i);
  }

  lemma IssuedForTaken(c: Config, crypto: U.Crypto, bytes: string -> Bytes, events: seq<Event>, i: nat)
    requires ThroughHandler(crypto, bytes, events) && i < |Log(c, events)| && Log(c, events)[i].DidIssue?
    ensures Taken(crypto, bytes, Log(c, events)[i].job.req)
    ensures var req := Log(c, events)[i].job.req;
            Base64.StdDecode(req.agentSignData).Some?
                && Sanctioned(crypto, bytes, req, Base64.StdDecode(req.agentSignData).value)
  {
    var log := Log(c, events);
    var job := log[i].job;
    RunJustified(c, events, i);
    var a := Locate(log, i, DidClaim(job));
    RunJustified(c, events, a);
    var m := Locate(log, a, DidCreate(job.id, job.req));
    AllTaken(c, crypto, bytes, events, m);
  }

  /** Whatever a hosted key signs on a lease is sanctioned too, for a session its host has signed, and
      so was the request whose approval granted the lease: same client, user, hosted key and
      destination. */
  lemma LeasedSignaturesAreSanctioned(c: Config, crypto: U.Crypto, bytes: string -> Bytes, events: seq<Event>, i: nat)
    returns (g: nat, n: nat, data: Bytes, key: U.PublicKey, host: U.PublicKey, sid: Bytes)
    requires c.mode.LocalKey? && ThroughHandler(crypto, bytes, events)
    requires i < |Log(c, events)| && Log(c, events)[i].DidReissue?
    ensures g < i && Log(c, events)[g].DidGrant?
    ensures var granted, reused := Log(c, events)[g].job.req, Log(c, events)[i].req;
            && SameSession(granted, reused) && Taken(crypto, bytes, granted) && !granted.disableLease
            && n < |events| && events[n].Reissue? && SignedBy(events[n].signer, reused, data, Log(c, events)[i].res)
            && Faithful(crypto, bytes, reused, data, key, host, sid) && HostSpoke(crypto, host, sid)
  {
    var log := Log(c, events);
    g := ReissueChain(c, events, i);
    var d := GrantChain(c, events, g);
    var a, b := ApprovalChain(c, events, d);
    IssuedForTaken(c, crypto, bytes, events, b);
    AllTaken(c, crypto, bytes, events, i);
    n, data := ReissuedInRun(c, events, i);
    LookupExact(log[g].job.req, log[i].req);
    key, host, sid :| Faithful(crypto, bytes, log[i].req, data, key, host, sid)
        && (log[i].req.disableLease || HostSpoke(crypto, host, sid));
  }

  lemma ReissuedInRun(c: Config, events: seq<Event>, i: nat) returns (n: nat, data: Bytes)
    requires c.mode.LocalKey? && i < |Log(c, events)| && Log(c, events)[i].DidReissue?
    ensures n < |events| && events[n].Reissue?
    ensures SignedBy(events[n].signer, Log(c, events)[i].req, data, Log(c, events)[i].res)
  {
    n := MadeBy(c, events, i);
    ReissueSource(c, Run(c, events[..n]), events[n]);
    var r := Log(c, events)[i];
    IssuedIsSigned(c, r.req, events[n].now + Lease.Remaining(r.lease, r.measuredAt), events[n].signer);
    data := Base64.StdDecode(r.req.agentSignData).value;
  }

  // --- What the CA certifies ---

  /** Every request of the run, on either path and in either mode, came through the handler. */
  ghost predicate Vetted(req: Request) {
    exists s: H.Server, a: H.Asked, p: H.Peer :: H.Vet(s, a, p) == Ok(req)
  }

  ghost predicate AllVetted(events: seq<Event>) {
    forall e :: e in events ==> (e.Create? ==> Vetted(e.req)) && (e.Find? ==> Vetted(e.req))
  }

  lemma VettedInRun(c: Config, events: seq<Event>, i: nat)
    requires AllVetted(events) && i < |Log(c, events)|
    requires Log(c, events)[i].DidCreate? || Log(c, events)[i].DidReissue?
    ensures Vetted(Log(c, events)[i].req)
  {
    var P := (r: Request) => Vetted(r);
    HoldsRun(P, c, events);
    assert Log(c, events)[i] in Log(c, events);
  }

  lemma VettedJob(c: Config, events: seq<Event>, i: nat)
    requires AllVetted(events) && i < |Log(c, events)| && Log(c, events)[i].DidClaim?
    ensures Vetted(Log(c, events)[i].job.req)
  {
    var log := Log(c, events);
    RunJustified(c, events, i);
    var m := Locate(log, i, DidCreate(log[i].job.id, log[i].job.req));
    VettedInRun(c, events, m);
  }

  /** The question put to the CA is about what this client asked for: its key, user and target, and the
      address the request came from. */
  predicate AskedFor(q: CertRequest, a: H.Asked, p: H.Peer) {
    q.publicKey == a.publicKey && q.targetUser == a.targetUser && q.targetIP == a.targetIP && q.sourceIP == p.sourceIP
  }

  function QuestionFor(req: Request, until: Time): CertRequest {
    CertRequest(req.publicKey, req.targetUser, req.targetIP, req.sourceIP, until)
  }

  lemma QuestionAsked(req: Request, until: Time) returns (s: H.Server, a: H.Asked, p: H.Peer)
    requires Vetted(req)
    ensures H.Vet(s, a, p) == Ok(req) && AskedFor(QuestionFor(req, until), a, p)
  {
    s, a, p :| H.Vet(s, a, p) == Ok(req);
    H.VettedCarries(s, a, p);
  }

  lemma CertifiedIs(c: Config, req: Request, until: Time, signer: Signer)
    requires c.mode.LocalCA? && Issue(c, req, until, signer).Ok?
    ensures var res := Issue(c, req, until, signer).value;
            signer.certify(QuestionFor(req, until)) == Some(res.cert) && res.signature == "" && res.expiresAt == until
  {
    CertificateExact(c, req, until, signer, QuestionFor(req, until));
  }

  /** The result is the CA's answer to the question for this request. */
  predicate Certifies(signer: Signer, req: Request, res: Result) {
    signer.certify(QuestionFor(req, res.expiresAt)) == Some(res.cert) && res.signature == ""
  }

  lemma SignCertifies(c: Config, w: World, e: Event, r: Record)
    requires c.mode.LocalCA? && Do(c, w, e).1 == Some(r) && r.DidIssue?
    ensures e.Sign? && e.k in w.workers && r.job == w.workers[e.k].job
    ensures Certifies(e.signer, r.job.req, r.res) && r.res.expiresAt == e.now + r.job.ttl
  {
    SignSource(c, w, e);
    var job := w.workers[e.k].job;
    CertifiedIs(c, job.req, e.now + job.ttl, e.signer);
  }

  lemma ReissueCertifies(c: Config, w: World, e: Event, r: Record)
    requires c.mode.LocalCA? && Do(c, w, e).1 == Some(r) && r.DidReissue?
    ensures e.Reissue? && Certifies(e.signer, r.req, r.res)
  {
    ReissueSource(c, w, e);
    CertifiedIs(c, r.req, e.now + Lease.Remaining(r.lease, r.measuredAt), e.signer);
  }

  lemma CertifiedInRun(c: Config, events: seq<Event>, i: nat) returns (n: nat)
    requires c.mode.LocalCA? && i < |Log(c, events)| && Log(c, events)[i].DidIssue?
    ensures n < |events| && events[n].Sign? && events[n].k == Log(c, events)[i].job.k
    ensures var job, res := Log(c, events)[i].job, Log(c, events)[i].res;
            Certifies(events[n].signer, job.req, res) && res.expiresAt == events[n].now + job.ttl
  {
    n := MadeBy(c, events, i);
    SignCertifies(c, Run(c, events[..n]), events[n], Log(c, events)[i]);
    JobNumber(c, events[..n], events[n].k);
  }

  lemma RecertifiedInRun(c: Config, events: seq<Event>, i: nat) returns (n: nat)
    requires c.mode.LocalCA? && i < |Log(c, events)| && Log(c, events)[i].DidReissue?
    ensures n < |events| && events[n].Reissue?
    ensures Certifies(events[n].signer, Log(c, events)[i].req, Log(c, events)[i].res)
  {
    n := MadeBy(c, events, i);
    ReissueCertifies(c, Run(c, events[..n]), events[n], Log(c, events)[i]);
  }

  lemma IssuedForVetted(c: Config, events: seq<Event>, i: nat)
    requires AllVetted(events) && i < |Log(c, events)| && Log(c, events)[i].DidIssue?
    ensures Vetted(Log(c, events)[i].job.req)
  {
    RunJustified(c, events, i);
    var m := Locate(Log(c, events), i, DidClaim(Log(c, events)[i].job));
    VettedJob(c, events, m);
  }

  /** Every certificate issued for an approval, in any run, is the CA's answer to what the client had
      asked the handler for, until the end the approval gave it. */
  lemma ApprovedCertificatesAreAsked(c: Config, events: seq<Event>, i: nat)
    returns (n: nat, q: CertRequest, s: H.Server, a: H.Asked, p: H.Peer)
    requires c.mode.LocalCA? && AllVetted(events) && i < |Log(c, events)| && Log(c, events)[i].DidIssue?
    ensures n < |events| && events[n].Sign? && events[n].k == Log(c, events)[i].job.k
    ensures var job, res := Log(c, events)[i].job, Log(c, events)[i].res;
            && events[n].signer.certify(q) == Some(res.cert) && res.signature == ""
            && q.until == res.expiresAt == events[n].now + job.ttl
            && H.Vet(s, a, p) == Ok(job.req) && AskedFor(q, a, p)
  {
    n := CertifiedInRun(c, events, i);
    IssuedForVetted(c, events, i);
    q := QuestionFor(Log(c, events)[i].job.req, Log(c, events)[i].res.expiresAt);
    s, a, p := QuestionAsked(Log(c, events)[i].job.req, q.until);
  }

  /** So is every certificate issued on a lease, and the approval that granted the lease was for the
      same client, source address, user and target. */
  lemma LeasedCertificatesAreAsked(c: Config, events: seq<Event>, i: nat)
    returns (g: nat, n: nat, q: CertRequest, s: H.Server, a: H.Asked, p: H.Peer)
    requires c.mode.LocalCA? && AllVetted(events) && i < |Log(c, events)| && Log(c, events)[i].DidReissue?
    ensures g < i && Log(c, events)[g].DidGrant? && SameSession(Log(c, events)[g].job.req, Log(c, events)[i].req)
    ensures n < |events| && events[n].Reissue?
    ensures var r := Log(c, events)[i];
            && events[n].signer.certify(q) == Some(r.res.cert) && r.res.signature == "" && q.until == r.res.expiresAt
            && H.Vet(s, a, p) == Ok(r.req) && AskedFor(q, a, p)
  {
    n := RecertifiedInRun(c, events, i);
    VettedInRun(c, events, i);
    q := QuestionFor(Log(c, events)[i].req, Log(c, events)[i].res.expiresAt);
    s, a, p := QuestionAsked(Log(c, events)[i].req, q.until);
    g := GrantedSession(c, events, i);
  }

  lemma GrantedSession(c: Config, events: seq<Event>, i: nat) returns (g: nat)
    requires i < |Log(c, events)| && Log(c, events)[i].DidReissue?
    ensures g < i && Log(c, events)[g].DidGrant? && SameSession(Log(c, events)[g].job.req, Log(c, events)[i].req)
  {
    g := ReissueChain(c, events, i);
    var d := GrantChain(c, events, g);
    LookupExact(Log(c, events)[g].job.req, Log(c, events)[i].req);
  }
}
