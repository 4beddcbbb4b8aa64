/** The sign handler behind the request pipeline: which requests it takes, in which form they reach
    the approval store, and how one call drives the stores. */
module SignHandler {
  import opened Prelude
  import opened Protocol
  import A = Approval
  import Base64
  import Fingerprint
  import Lease
  import U = UserAuth

  /** The parts of a sign request that decide. */
  datatype Asked = Asked(targetUser: string, targetIP: string, publicKey: string, agentSignData: string,
                         hostPublicKey: string, hostKeyFingerprint: string, binding: U.Binding,
                         destinationHostPublicKey: string)

  /** Where the request came from. */
  datatype Peer = Peer(sourceIP: string, clientCertFP: string)

  /** What the handler reads of the server: mode, loaded keys, cryptography, and text as bytes. */
  datatype Server = Server(mode: A.Mode, caLoaded: bool, signers: map<string, U.PublicKey>, crypto: U.Crypto,
                           bytes: string -> Bytes)

  /** The pool files every signer under its own fingerprint. */
  predicate Pooled(s: Server) {
    forall fp :: fp in s.signers ==> U.KeyFingerprint(s.crypto, s.signers[fp]) == fp
  }

  predicate Available(s: Server) {
    if s.mode.LocalKey? then |s.signers| > 0 else s.caLoaded
  }

  datatype Refusal = Sealed | MissingSignData | SignDataTooLarge | InvalidHostKey | SignerUnavailable | InvalidSignData
      | InvalidBinding

  // --- Vetting ---

  lemma OneElement(keys: set<string>, a: string, b: string)
    requires |keys| == 1 && a in keys && b in keys
    ensures a == b
  {
    assert |keys - {a}| == 0;
    assert keys - {a} == {};
  }

  function SoleFingerprint(signers: map<string, U.PublicKey>): Option<string> {
    if |signers.Keys| != 1 then None
    else
      assert forall a, b :: a in signers.Keys && b in signers.Keys ==> a == b by {
        forall a, b | a in signers.Keys && b in signers.Keys ensures a == b {
          OneElement(signers.Keys, a, b);
        }
      }
      var fp :| fp in signers.Keys;
      Some(fp)
  }

  /** resolveHostKeyFingerprint: a key, a fingerprint, or the only signer there is. */
  function ResolveHostKey(s: Server, a: Asked): Option<string> {
    var hint := Fingerprint.Normalize(a.hostKeyFingerprint);
    if s.mode.LocalCA? then Some("")
    else if a.hostPublicKey != "" then
      match Base64.StdDecode(a.hostPublicKey)
      case None => None
      case Some(wire) =>
        match s.crypto.parseKey(wire)
        case None => None
        case Some(key) =>
          var fp := U.KeyFingerprint(s.crypto, key);
          if hint != "" && hint != fp then None else Some(fp)
    else if hint != "" then
      match Fingerprint.ParseHint(hint)
      case Ok(fp) => Some(fp)
      case Err(_) => None
    else SoleFingerprint(s.signers)
  }

  function RequestFor(a: Asked, p: Peer, hostKeyFP: string, destinationFP: string, disableLease: bool): A.Request {
    A.Request(a.targetUser, a.targetIP, a.publicKey, p.sourceIP, p.clientCertFP, a.agentSignData, hostKeyFP,
        destinationFP, disableLease)
  }

  predicate SessionBound(a: Asked) {
    a.binding.hostPublicKey != ""
  }

  function Validate(s: Server, a: Asked, key: U.PublicKey, data: Bytes): Outcome<U.Validated, U.BindingError> {
    if SessionBound(a) then U.ValidateBound(s.crypto, a.binding, data, s.bytes(a.targetUser), Some(key))
    else U.ValidateDirect(s.crypto, a.destinationHostPublicKey, data, s.bytes(a.targetUser), Some(key))
  }

  /** handleSign up to the stores: the request as it is approved, or the refusal. */
  function Vet(s: Server, a: Asked, p: Peer): Outcome<A.Request, Refusal> {
    if !Available(s) then Err(Sealed)
    else if s.mode.LocalKey? && a.agentSignData == "" then Err(MissingSignData)
    else if |a.agentSignData| > U.MAX_AGENT_SIGN_DATA then Err(SignDataTooLarge)
    else
      match ResolveHostKey(s, a)
      case None => Err(InvalidHostKey)
      case Some(fp) =>
        if s.mode.LocalCA? then Ok(RequestFor(a, p, fp, "", false))
        else if Fingerprint.Normalize(fp) !in s.signers then Err(SignerUnavailable)
        else
          match Base64.StdDecode(a.agentSignData)
          case None => Err(InvalidSignData)
          case Some(data) =>
            match Validate(s, a, s.signers[Fingerprint.Normalize(fp)], data)
            case Err(_) => Err(InvalidBinding)
            case Ok(v) => Ok(RequestFor(a, p, fp, v.hostKeyFingerprint, !SessionBound(a)))
  }

  // --- What a vetted request is ---

  /** The server key a request names, and the session: proven by that server's signature when the
      request is session-bound, otherwise the client's word. */
  predicate Names(s: Server, a: Asked, host: U.PublicKey, sid: Bytes) {
    if a.binding.hostPublicKey != "" then !a.binding.forwarding && U.Proven(s.crypto, a.binding) == Some((host, sid))
    else
      match U.DecodeRequired(a.destinationHostPublicKey)
      case None => false
      case Some(wire) => s.crypto.parseKey(wire) == Some(host)
  }

  /** The sign data is an intended payload for that server, that session and that hosted key. */
  ghost predicate Sanctions(s: Server, a: Asked, fp: string, key: U.PublicKey, host: U.PublicKey, sid: Bytes) {
    && 0 < |a.agentSignData| <= U.MAX_AGENT_SIGN_DATA
    && ResolveHostKey(s, a) == Some(fp)
    && Fingerprint.Normalize(fp) in s.signers && s.signers[Fingerprint.Normalize(fp)] == key
    && Names(s, a, host, sid) && sid != []
    && Base64.StdDecode(a.agentSignData).Some?
    && U.IsIntended(Base64.StdDecode(a.agentSignData).value, sid, s.bytes(a.targetUser), key, host)
  }

  lemma ValidateExact(s: Server, a: Asked, key: U.PublicKey, data: Bytes, host: U.PublicKey, sid: Bytes)
    requires Names(s, a, host, sid)
    ensures Validate(s, a, key, data) == Ok(U.Validated(U.KeyFingerprint(s.crypto, host), sid))
       <==> sid != [] && U.Acceptable(data, sid, s.bytes(a.targetUser), key, host)
  {
    if SessionBound(a) {
      U.BoundAcceptanceExact(s.crypto, a.binding, data, s.bytes(a.targetUser), key);
      ProvenSession(s.crypto, a.binding);
    } else {
      U.DirectAcceptanceExact(s.crypto, a.destinationHostPublicKey, data, s.bytes(a.targetUser), key, sid);
    }
  }

  lemma ProvenSession(c: U.Crypto, b: U.Binding)
    ensures U.Proven(c, b).Some? ==> U.Proven(c, b).value.1 != []
  {
  }

  lemma ValidatedNames(s: Server, a: Asked, key: U.PublicKey, data: Bytes) returns (host: U.PublicKey)
    requires Validate(s, a, key, data).Ok?
    ensures Names(s, a, host, Validate(s, a, key, data).value.sessionID)
    ensures Validate(s, a, key, data).value.hostKeyFingerprint == U.KeyFingerprint(s.crypto, host)
  {
    if SessionBound(a) {
      U.BoundAcceptanceExact(s.crypto, a.binding, data, s.bytes(a.targetUser), key);
      host := U.Proven(s.crypto, a.binding).value.0;
    } else {
      host := s.crypto.parseKey(U.DecodeRequired(a.destinationHostPublicKey).value).value;
    }
  }

  /** A hosted-key request is taken exactly when its sign data is sanctioned; what is approved then
      names the hosted key and the server, and may earn a lease only if the server itself spoke. */
  lemma SanctionedIsVetted(s: Server, a: Asked, p: Peer, fp: string, key: U.PublicKey, host: U.PublicKey, sid: Bytes)
    requires s.mode.LocalKey? && Sanctions(s, a, fp, key, host, sid)
    ensures var destination := Base64.RawEncode(s.crypto.sha256(host.wire));
            Vet(s, a, p) == Ok(RequestFor(a, p, fp, destination, a.binding.hostPublicKey == ""))
  {
    assert Fingerprint.Normalize(fp) in s.signers.Keys;
    var data := Base64.StdDecode(a.agentSignData).value;
    U.HandlerCapSuffices(a.agentSignData);
    U.OrdinarilyAcceptable(data, sid, s.bytes(a.targetUser), key, host);
    ValidateExact(s, a, key, data, host, sid);
  }

  /** So a client that prints an intended request in either layout and sends it in base64 is served,
      whatever algorithm it names. */
  lemma PrintedIsVetted(s: Server, a: Asked, p: Peer, fp: string, host: U.PublicKey, sid: Bytes, data: Bytes)
    requires s.mode.LocalKey? && ResolveHostKey(s, a) == Some(fp) && Fingerprint.Normalize(fp) in s.signers
    requires Names(s, a, host, sid) && sid != []
    requires U.IsIntended(data, sid, s.bytes(a.targetUser), s.signers[Fingerprint.Normalize(fp)], host)
    requires a.agentSignData == Base64.StdEncode(data) && 0 < |a.agentSignData| <= U.MAX_AGENT_SIGN_DATA
    ensures var destination := Base64.RawEncode(s.crypto.sha256(host.wire));
            Vet(s, a, p) == Ok(RequestFor(a, p, fp, destination, a.binding.hostPublicKey == ""))
  {
    Base64.StdRoundTrip(data);
    SanctionedIsVetted(s, a, p, fp, s.signers[Fingerprint.Normalize(fp)], host, sid);
  }

  lemma VettedIsSanctioned(s: Server, a: Asked, p: Peer) returns (key: U.PublicKey, host: U.PublicKey, sid: Bytes)
    requires s.mode.LocalKey? && Vet(s, a, p).Ok?
    ensures Sanctions(s, a, Vet(s, a, p).value.hostKeyFP, key, host, sid)
    ensures Vet(s, a, p).value.destinationFP == Base64.RawEncode(s.crypto.sha256(host.wire))
    ensures Vet(s, a, p).value.disableLease <==> a.binding.hostPublicKey == ""
  {
    var fp := Vet(s, a, p).value.hostKeyFP;
    key := s.signers[Fingerprint.Normalize(fp)];
    var data := Base64.StdDecode(a.agentSignData).value;
    host := ValidatedNames(s, a, key, data);
    sid := Validate(s, a, key, data).value.sessionID;
    ValidateExact(s, a, key, data, host, sid);
  }

  /** Whatever is taken, in either mode, carries what was asked for and where it came from. */
  lemma VettedCarries(s: Server, a: Asked, p: Peer)
    requires Vet(s, a, p).Ok?
    ensures var req := Vet(s, a, p).value;
            && req.targetUser == a.targetUser && req.targetIP == a.targetIP && req.publicKey == a.publicKey
            && req.agentSignData == a.agentSignData
            && req.sourceIP == p.sourceIP && req.clientCertFP == p.clientCertFP
  {
  }

  /** With a CA a request is taken exactly when the CA is loaded and the sign data within the cap; it
      names no hosted key and no destination, and leases are on. */
  lemma CaVetExact(s: Server, a: Asked, p: Peer)
    requires s.mode.LocalCA?
    ensures Vet(s, a, p).Ok? <==> s.caLoaded && |a.agentSignData| <= 12 * 1024
    ensures Vet(s, a, p).Ok? ==>
              var req := Vet(s, a, p).value;
              req.hostKeyFP == "" && req.destinationFP == "" && !req.disableLease
  {
  }

  /** The reasons to refuse before any key is looked at. */
  lemma RefusedEarly(s: Server, a: Asked, p: Peer)
    ensures Vet(s, a, p) == Err(Sealed) <==> if s.mode.LocalCA? then !s.caLoaded else s.signers == map[]
    ensures Vet(s, a, p) == Err(MissingSignData) <==> s.mode.LocalKey? && s.signers != map[] && a.agentSignData == ""
    ensures Vet(s, a, p) == Err(SignDataTooLarge) <==>
              |a.agentSignData| > 12 * 1024 && if s.mode.LocalCA? then s.caLoaded else s.signers != map[]
  {
    assert |s.signers| == 0 <==> s.signers == map[];
  }

  /** And the reasons after that, for hosted keys, each in its turn. */
  lemma RefusedLate(s: Server, a: Asked, p: Peer)
    requires s.mode.LocalKey? && s.signers != map[] && 0 < |a.agentSignData| <= 12 * 1024
    ensures ResolveHostKey(s, a).None? ==> Vet(s, a, p) == Err(InvalidHostKey)
    ensures ResolveHostKey(s, a).Some? ==>
              var fp := Fingerprint.Normalize(ResolveHostKey(s, a).value);
              && (fp !in s.signers ==> Vet(s, a, p) == Err(SignerUnavailable))
              && (fp in s.signers ==>
                    var data := Base64.StdDecode(a.agentSignData);
                    && (data.None? ==> Vet(s, a, p) == Err(InvalidSignData))
                    && (data.Some? && Validate(s, a, s.signers[fp], data.value).Err? ==>
                          Vet(s, a, p) == Err(InvalidBinding)))
  {
    assert |s.signers| == 0 <==> s.signers == map[];
  }

  // --- Which hosted key a request names ---

  /** A public key names its own fingerprint, unless the fingerprint that comes with it says otherwise. */
  lemma KeyNamesItself(s: Server, a: Asked, wire: Bytes, key: U.PublicKey)
    requires s.mode.LocalKey? && wire != [] && a.hostPublicKey == Base64.StdEncode(wire) != ""
    requires s.crypto.parseKey(wire) == Some(key)
    ensures var hint, fp := Fingerprint.Normalize(a.hostKeyFingerprint), Base64.RawEncode(s.crypto.sha256(key.wire));
            ResolveHostKey(s, a) == if hint == "" || hint == fp then Some(fp) else None
  {
    Base64.StdRoundTrip(wire);
  }

  /** A fingerprint alone, in any of its four forms, names the key with that digest. */
  lemma FormsNameTheKey(s: Server, a: Asked, digest: Bytes)
    requires s.mode.LocalKey? && a.hostPublicKey == "" && |digest| == 32
    requires a.hostKeyFingerprint == Base64.RawEncode(digest) || a.hostKeyFingerprint == Base64.StdEncode(digest)
          || a.hostKeyFingerprint == "SHA256:" + Base64.RawEncode(digest)
          || a.hostKeyFingerprint == Base64.HexEncode(digest)
    ensures ResolveHostKey(s, a) == Some(Base64.RawEncode(digest))
    ensures Fingerprint.Normalize(Base64.RawEncode(digest)) == Base64.RawEncode(digest)
  {
    Fingerprint.FormsOfOneDigest(digest);
    Fingerprint.NormalForms(digest);
  }

  /** With neither, the only loaded key is meant, and nothing when there is not exactly one. */
  lemma SoleKeyIsMeant(s: Server, a: Asked, fp: string)
    requires s.mode.LocalKey? && a.hostPublicKey == "" && Fingerprint.Normalize(a.hostKeyFingerprint) == ""
    ensures ResolveHostKey(s, a) == Some(fp) <==> s.signers.Keys == {fp}
  {
    if s.signers.Keys == {fp} {
      assert |s.signers.Keys| == 1;
    }
    if ResolveHostKey(s, a) == Some(fp) {
      forall k | k in s.signers.Keys ensures k == fp {
        OneElement(s.signers.Keys, k, fp);
      }
    }
  }

  // --- One call of the handler ---

  /** The clock as the stages of one call read it. */
  datatype Clock = Clock(found: Time, measured: Time, issued: Time, made: Time)

  predicate Forward(t: Clock) {
    t.found <= t.measured <= t.issued <= t.made
  }

  /** A call is five events of the protocol: on the fast path the last, on the slow path the first
      four come to nothing. */
  function SignCall(c: A.Config, w: World, k: nat, id: string, req: A.Request, t: Clock,
                    best: Option<Lease.ActiveLease>, signer: A.Signer): World
  {
    FromFound(c, Step(c, w, Find(k, req, t.found, best)), k, id, req, t, signer)
  }

  function FromFound(c: A.Config, w: World, k: nat, id: string, req: A.Request, t: Clock, signer: A.Signer): World {
    FromMeasured(c, Step(c, w, Measure(k, t.measured)), k, id, req, t, signer)
  }

  function FromMeasured(c: A.Config, w: World, k: nat, id: string, req: A.Request, t: Clock, signer: A.Signer): World {
    FromMinted(c, Step(c, w, Reissue(k, t.issued, signer)), k, id, req, t)
  }

  function FromMinted(c: A.Config, w: World, k: nat, id: string, req: A.Request, t: Clock): World {
    Step(c, Step(c, w, Register(k, id, t.made)), Create(id, req, t.made))
  }

  /** What the fast path mints, if it gets that far. */
  function FromLease(c: A.Config, req: A.Request, t: Clock, best: Option<Lease.ActiveLease>, signer: A.Signer)
    : Option<A.Result>
  {
    if !c.leases || req.disableLease || best.None? || Lease.Remaining(best.value, t.measured) <= 0 then None
    else
      match A.Issue(c, req, t.issued + Lease.Remaining(best.value, t.measured), signer)
      case Err(_) => None
      case Ok(r) => Some(r.(leaseExpiresAt := best.value.expiresAt))
  }

  /** The transactions after one call. */
  function Handled(c: A.Config, txs: A.Table, id: string, req: A.Request, t: Clock,
                   best: Option<Lease.ActiveLease>, signer: A.Signer): A.Table
  {
    match FromLease(c, req, t, best, signer)
    case None => txs[id := A.Opened(id, req, t.made)]
    case Some(res) => txs[id := A.Instant(id, InstantRequest(req), res, t.made)]
  }

  lemma MintedCall(c: A.Config, w: World, k: nat, id: string, req: A.Request, t: Clock, res: A.Result)
    requires !Known(w, id) && w.clock <= t.made && k in w.reuses && w.reuses[k] == Minted(req, res)
    ensures FromMinted(c, w, k, id, req, t).txs == w.txs[id := A.Instant(id, InstantRequest(req), res, t.made)]
  {
  }

  /** Without a lease in hand all that is left is to open a transaction. */
  lemma MissedCall(c: A.Config, w: World, k: nat, id: string, req: A.Request, t: Clock, signer: A.Signer)
    requires !Known(w, id) && w.clock <= t.made && k !in w.reuses
    ensures FromMinted(c, w, k, id, req, t).txs == w.txs[id := A.Opened(id, req, t.made)]
    ensures FromMeasured(c, w, k, id, req, t, signer).txs == w.txs[id := A.Opened(id, req, t.made)]
    ensures FromFound(c, w, k, id, req, t, signer).txs == w.txs[id := A.Opened(id, req, t.made)]
  {
    assert Step(c, w, Register(k, id, t.made)) == w;
    assert Step(c, w, Reissue(k, t.issued, signer)) == w;
    assert Step(c, w, Measure(k, t.measured)) == w;
  }

  /** Asking the signer on a lease in hand either mints a result or gives the lease up. */
  lemma ReissueStep(c: A.Config, w: World, k: nat, req: A.Request, t: Clock, l: Lease.ActiveLease, signer: A.Signer)
    requires w.clock <= t.issued && k in w.reuses && w.reuses[k] == Measured(req, l, t.found, t.measured)
    requires Consults(c, req) && Lease.Remaining(l, t.measured) > 0
    ensures var w', res := DoReissue(c, w, k, t.issued, signer).0, FromLease(c, req, t, Some(l), signer);
            && w'.txs == w.txs && w'.gone == w.gone && w'.clock == t.issued
            && (res.None? ==> k !in w'.reuses)
            && (res.Some? ==> k in w'.reuses && w'.reuses[k] == Minted(req, res.value))
  {
  }

  lemma MeasuredCall(c: A.Config, w: World, k: nat, id: string, req: A.Request, t: Clock, l: Lease.ActiveLease,
                     signer: A.Signer)
    requires Forward(t) && !Known(w, id) && w.clock <= t.issued
    requires k in w.reuses && w.reuses[k] == Measured(req, l, t.found, t.measured)
    requires c.leases && !req.disableLease && Lease.Remaining(l, t.measured) > 0
    ensures FromMeasured(c, w, k, id, req, t, signer).txs == Handled(c, w.txs, id, req, t, Some(l), signer)
  {
    var w' := Step(c, w, Reissue(k, t.issued, signer));
    ReissueStep(c, w, k, req, t, l, signer);
    match FromLease(c, req, t, Some(l), signer) {
      case None => MissedCall(c, w', k, id, req, t, signer);
      case Some(res) => MintedCall(c, w', k, id, req, t, res);
    }
  }

  lemma FoundCall(c: A.Config, w: World, k: nat, id: string, req: A.Request, t: Clock, l: Lease.ActiveLease,
                  signer: A.Signer)
    requires Forward(t) && !Known(w, id) && w.clock <= t.measured
    requires k in w.reuses && w.reuses[k] == Found(req, l, t.found) && c.leases && !req.disableLease
    ensures FromFound(c, w, k, id, req, t, signer).txs == Handled(c, w.txs, id, req, t, Some(l), signer)
  {
    var w' := Step(c, w, Measure(k, t.measured));
    if Lease.Remaining(l, t.measured) <= 0 {
      MissedCall(c, w', k, id, req, t, signer);
    } else {
      MeasuredCall(c, w', k, id, req, t, l, signer);
    }
  }

  predicate Consults(c: A.Config, req: A.Request) {
    c.leases && !req.disableLease
  }

  /** A call of the handler that nobody interrupts is a run of the protocol. */
  lemma CallIsProtocol(c: A.Config, w: World, k: nat, id: string, req: A.Request, t: Clock,
                       best: Option<Lease.ActiveLease>, signer: A.Signer)
    requires !Known(w, id) && k !in w.reuses && w.clock <= t.found && Forward(t)
    requires Consults(c, req) ==> Lease.IsBest(w.leases, A.LookupOf(req), t.found, best)
    ensures SignCall(c, w, k, id, req, t, best, signer).txs == Handled(c, w.txs, id, req, t, best, signer)
  {
    var w' := Step(c, w, Find(k, req, t.found, best));
    if Consults(c, req) && best.Some? {
      FoundCall(c, w', k, id, req, t, best.value, signer);
    } else {
      MissedCall(c, w', k, id, req, t, signer);
    }
  }

  /** handleSign outside dev mode, with id the fresh transaction id. */
  method HandleSign(c: A.Config, s: Server, store: A.Store, leases: Lease.Store, a: Asked, p: Peer, id: string,
                    t: Clock, signer: A.Signer)
    returns (answer: Outcome<string, Refusal>, best: Option<Lease.ActiveLease>)
    requires store.Valid() && leases.Valid() && id !in store.txs
    modifies store
    ensures store.Valid()
    ensures answer == (match Vet(s, a, p) case Err(e) => Err(e) case Ok(_) => Ok(id))
    ensures answer.Err? ==> store.Contents() == old(store.Contents())
    ensures answer.Ok? ==>
              && (Consults(c, Vet(s, a, p).value) ==>
                   Lease.IsBest(leases.leases, A.LookupOf(Vet(s, a, p).value), t.found, best))
              && store.Contents() == Handled(c, old(store.Contents()), id, Vet(s, a, p).value, t, best, signer)
  {
    var vetted := Vet(s, a, p);
    if vetted.Err? {
      return Err(vetted.error), None;
    }
    best := Enter(c, store, leases, vetted.value, id, t, signer);
    answer := Ok(id);
  }

  method Enter(c: A.Config, store: A.Store, leases: Lease.Store, req: A.Request, id: string, t: Clock, signer: A.Signer)
    returns (best: Option<Lease.ActiveLease>)
    requires store.Valid() && leases.Valid() && id !in store.txs
    modifies store
    ensures store.Valid()
    ensures Consults(c, req) ==> Lease.IsBest(leases.leases, A.LookupOf(req), t.found, best)
    ensures store.Contents() == Handled(c, old(store.Contents()), id, req, t, best, signer)
  {
    best := None;
    if Consults(c, req) {
      best := leases.FindActive(A.LookupOf(req), t.found);
    }
    var res := FromLease(c, req, t, best, signer);
    if res.Some? {
      store.CreateInstantApproved(id, InstantRequest(req), res.value, t.made);
    } else {
      store.CreateBound(id, req, t.made);
    }
  }
}
