/** Hosted-key signing accepts only SSH user-auth payloads (section 7 of RFC 4252) that name the
    bound session, the approved user and the hosted key. */
module UserAuth {
  import opened Prelude
  import opened Wire
  import Base64
  import Fingerprint

  const MSG_USERAUTH_REQUEST: Byte := 50
  const SERVICE := Ascii("ssh-connection")
  const METHOD_PUBLICKEY := Ascii("publickey")
  const METHOD_HOSTBOUND := Ascii("publickey-hostbound-v00@openssh.com")

  /** The length of the shortest payload with a session id that reads in both layouts: its user name
      has a length whose first byte is the message number 50. */
  const AMBIGUITY_BOUND := 0x3200_001A

  /** The parsed payload; rest is whatever follows the public key. */
  datatype Request = Request(sessionID: Bytes, user: Bytes, service: Bytes, authMethod: Bytes,
                             hasSig: bool, algorithm: Bytes, publicKey: Bytes, rest: Bytes)

  /** Typed is the layout of Go and OpenSSH clients with a message number after the session id,
      Untyped the same payload without it. */
  datatype Layout = Typed | Untyped

  // --- Reading ---

  /** The fields after the session id and the message number; ssh.Unmarshal takes any non-zero
      byte for true and lets the last field absorb the rest. */
  function ReadTail(sid: Bytes, data: Bytes): Option<Request> {
    match ReadString(data)
    case Short => None
    case Got(user, d1) =>
      match ReadString(d1)
      case Short => None
      case Got(service, d2) => ReadMethod(sid, user, service, d2)
  }

  function ReadMethod(sid: Bytes, user: Bytes, service: Bytes, data: Bytes): Option<Request> {
    match ReadString(data)
    case Short => None
    case Got(authMethod, d1) =>
      match ReadByte(d1)
      case Short => None
      case Got(flag, d2) => ReadKey(sid, user, service, authMethod, flag != 0, d2)
  }

  function ReadKey(sid: Bytes, user: Bytes, service: Bytes, authMethod: Bytes, hasSig: bool, data: Bytes)
    : Option<Request>
  {
    match ReadString(data)
    case Short => None
    case Got(algorithm, d1) =>
      match ReadString(d1)
      case Short => None
      case Got(key, rest) => Some(Request(sid, user, service, authMethod, hasSig, algorithm, key, rest))
  }

  /** ssh.Unmarshal into the layout's struct, together with the message number check the caller
      applies to the typed layout. */
  function ReadAs(layout: Layout, data: Bytes): Option<Request> {
    match ReadString(data)
    case Short => None
    case Got(sid, d) => ReadBody(layout, sid, d)
  }

  function ReadBody(layout: Layout, sid: Bytes, data: Bytes): Option<Request> {
    if layout.Untyped? then ReadTail(sid, data)
    else
      match ReadByte(data)
      case Short => None
      case Got(kind, d) => if kind == MSG_USERAUTH_REQUEST then ReadTail(sid, d) else None
  }

  datatype BindingError =
    | Forwarding | HostPublicKey | SessionId | BadSignature | MissingSignData | BadRequest
    | MissingSessionId | RequestMismatch | TrailingData | HostBoundMismatch | UnsupportedMethod

  /** parseUserAuthSignData: the typed layout is tried first. */
  function Parse(data: Bytes): Outcome<Request, BindingError> {
    if data == [] then Err(MissingSignData)
    else
      var typed := ReadAs(Typed, data);
      if typed.Some? && typed.value.sessionID != [] then Ok(typed.value)
      else
        match ReadAs(Untyped, data)
        case None => Err(BadRequest)
        case Some(r) => if r.sessionID == [] then Err(MissingSessionId) else Ok(r)
  }

  // --- Printing ---

  predicate Fits(r: Request) {
    && |r.sessionID| < STRING_LIMIT && |r.user| < STRING_LIMIT && |r.service| < STRING_LIMIT
    && |r.authMethod| < STRING_LIMIT && |r.algorithm| < STRING_LIMIT && |r.publicKey| < STRING_LIMIT
  }

  /** The boolean may be printed as any byte of the right truth value. */
  predicate FlagFor(r: Request, flag: Byte) {
    r.hasSig <==> flag != 0
  }

  function PutTail(r: Request, flag: Byte): Bytes
    requires Fits(r)
  {
    PutString(r.user) + (PutString(r.service) + PutMethod(r, flag))
  }

  function PutMethod(r: Request, flag: Byte): Bytes
    requires Fits(r)
  {
    PutString(r.authMethod) + ([flag] + PutKey(r))
  }

  function PutKey(r: Request): Bytes
    requires Fits(r)
  {
    PutString(r.algorithm) + (PutString(r.publicKey) + r.rest)
  }

  function Encode(layout: Layout, r: Request, flag: Byte): Bytes
    requires Fits(r)
  {
    PutString(r.sessionID) + PutBody(layout, r, flag)
  }

  function PutBody(layout: Layout, r: Request, flag: Byte): Bytes
    requires Fits(r)
  {
    if layout.Typed? then [MSG_USERAUTH_REQUEST] + PutTail(r, flag) else PutTail(r, flag)
  }

  // --- Reading is the exact inverse of printing ---

  lemma KeyRoundTrip(r: Request)
    requires Fits(r)
    ensures ReadKey(r.sessionID, r.user, r.service, r.authMethod, r.hasSig, PutKey(r)) == Some(r)
  {
    StringRoundTrip(r.algorithm, PutString(r.publicKey) + r.rest);
    StringRoundTrip(r.publicKey, r.rest);
  }

  lemma MethodRoundTrip(r: Request, flag: Byte)
    requires Fits(r) && FlagFor(r, flag)
    ensures ReadMethod(r.sessionID, r.user, r.service, PutMethod(r, flag)) == Some(r)
  {
    var d := [flag] + PutKey(r);
    StringRoundTrip(r.authMethod, d);
    assert d[1..] == PutKey(r);
    KeyRoundTrip(r);
  }

  lemma TailRoundTrip(r: Request, flag: Byte)
    requires Fits(r) && FlagFor(r, flag)
    ensures ReadTail(r.sessionID, PutTail(r, flag)) == Some(r)
  {
    var d := PutMethod(r, flag);
    StringRoundTrip(r.user, PutString(r.service) + d);
    StringRoundTrip(r.service, d);
    MethodRoundTrip(r, flag);
  }

  lemma ReadRoundTrip(layout: Layout, r: Request, flag: Byte)
    requires Fits(r) && FlagFor(r, flag)
    ensures ReadAs(layout, Encode(layout, r, flag)) == Some(r)
  {
    var d := PutBody(layout, r, flag);
    StringRoundTrip(r.sessionID, d);
    assert layout.Typed? ==> d[1..] == PutTail(r, flag);
    TailRoundTrip(r, flag);
  }

  lemma KeyExact(sid: Bytes, user: Bytes, service: Bytes, authMethod: Bytes, hasSig: bool, data: Bytes)
    requires |sid| < STRING_LIMIT && |user| < STRING_LIMIT && |service| < STRING_LIMIT && |authMethod| < STRING_LIMIT
    requires ReadKey(sid, user, service, authMethod, hasSig, data).Some?
    ensures var r := ReadKey(sid, user, service, authMethod, hasSig, data).value;
            Fits(r) && data == PutKey(r)
  {
    StringExact(data);
    StringExact(ReadString(data).rest);
  }

  lemma MethodExact(sid: Bytes, user: Bytes, service: Bytes, data: Bytes) returns (flag: Byte)
    requires |sid| < STRING_LIMIT && |user| < STRING_LIMIT && |service| < STRING_LIMIT
    requires ReadMethod(sid, user, service, data).Some?
    ensures var r := ReadMethod(sid, user, service, data).value;
            && r.sessionID == sid && r.user == user && r.service == service
            && Fits(r) && FlagFor(r, flag) && data == PutMethod(r, flag)
  {
    StringExact(data);
    var m := ReadString(data);
    flag := m.rest[0];
    assert m.rest == [flag] + m.rest[1..];
    KeyExact(sid, user, service, m.value, flag != 0, m.rest[1..]);
  }

  lemma TailExact(sid: Bytes, data: Bytes) returns (flag: Byte)
    requires |sid| < STRING_LIMIT && ReadTail(sid, data).Some?
    ensures var r := ReadTail(sid, data).value;
            r.sessionID == sid && Fits(r) && FlagFor(r, flag) && data == PutTail(r, flag)
  {
    StringExact(data);
    var u := ReadString(data);
    StringExact(u.rest);
    var s := ReadString(u.rest);
    flag := MethodExact(sid, u.value, s.value, s.rest);
  }

  lemma TypedBody(r: Request, flag: Byte, data: Bytes)
    requires Fits(r) && data != [] && data[0] == MSG_USERAUTH_REQUEST && data[1..] == PutTail(r, flag)
    ensures data == PutBody(Typed, r, flag)
  {
  }

  lemma BodyExact(layout: Layout, sid: Bytes, data: Bytes) returns (flag: Byte)
    requires |sid| < STRING_LIMIT && ReadBody(layout, sid, data).Some?
    ensures var r := ReadBody(layout, sid, data).value;
            r.sessionID == sid && Fits(r) && FlagFor(r, flag) && data == PutBody(layout, r, flag)
  {
    if layout.Typed? {
      flag := TailExact(sid, data[1..]);
      TypedBody(ReadTail(sid, data[1..]).value, flag, data);
    } else {
      flag := TailExact(sid, data);
    }
  }

  lemma ReadExact(layout: Layout, data: Bytes) returns (flag: Byte)
    requires ReadAs(layout, data).Some?
    ensures var r := ReadAs(layout, data).value;
            Fits(r) && FlagFor(r, flag) && data == Encode(layout, r, flag)
  {
    StringExact(data);
    var sid := ReadString(data);
    flag := BodyExact(layout, sid.value, sid.rest);
  }

  /** A payload reads in a layout exactly when it is that layout's print of the request. */
  lemma ReadIffEncoded(layout: Layout, data: Bytes, r: Request)
    ensures ReadAs(layout, data) == Some(r) <==>
            Fits(r) && exists flag: Byte :: FlagFor(r, flag) && data == Encode(layout, r, flag)
  {
    if ReadAs(layout, data) == Some(r) {
      var flag := ReadExact(layout, data);
    }
    if Fits(r) {
      forall flag: Byte | FlagFor(r, flag) && data == Encode(layout, r, flag)
        ensures ReadAs(layout, data) == Some(r)
      {
        ReadRoundTrip(layout, r, flag);
      }
    }
  }

  // --- When the two layouts can be confused ---

  /** The first byte of the length of a field of n bytes is the message number. */
  predicate LooksTyped(n: nat) {
    n / 0x100_0000 == MSG_USERAUTH_REQUEST
  }

  lemma UntypedBody(r: Request, flag: Byte)
    requires Fits(r)
    ensures ReadString(Encode(Untyped, r, flag)) == Got(r.sessionID, PutTail(r, flag))
    ensures PutTail(r, flag)[0] == |r.user| / 0x100_0000
  {
    StringRoundTrip(r.sessionID, PutTail(r, flag));
    assert PutTail(r, flag)[0] == PutUint32(|r.user|)[0] == |r.user| / 256 / 256 / 256;
  }

  /** An untyped print also reads in the typed layout exactly when its user name is so long that the
      first byte of its length is the message number, and the rest happens to read on. */
  predicate Confusable(r: Request, flag: Byte)
    requires Fits(r)
  {
    LooksTyped(|r.user|) && ReadTail(r.sessionID, PutTail(r, flag)[1..]).Some?
  }

  lemma ConfusableExact(r: Request, flag: Byte)
    requires Fits(r)
    ensures ReadAs(Typed, Encode(Untyped, r, flag)).Some? <==> Confusable(r, flag)
  {
    UntypedBody(r, flag);
  }

  /** A payload of any size reads in both layouts exactly when it is a confusable untyped print. */
  lemma Unambiguous(data: Bytes)
    ensures ReadAs(Typed, data).Some? && ReadAs(Untyped, data).Some? <==>
            exists r: Request, flag: Byte ::
              Fits(r) && FlagFor(r, flag) && data == Encode(Untyped, r, flag) && Confusable(r, flag)
  {
    if ReadAs(Typed, data).Some? && ReadAs(Untyped, data).Some? {
      var r := ReadAs(Untyped, data).value;
      var flag := ReadExact(Untyped, data);
      ConfusableExact(r, flag);
    }
    forall r: Request, flag: Byte |
      Fits(r) && FlagFor(r, flag) && data == Encode(Untyped, r, flag) && Confusable(r, flag)
      ensures ReadAs(Typed, data).Some? && ReadAs(Untyped, data).Some?
    {
      ConfusableExact(r, flag);
      ReadRoundTrip(Untyped, r, flag);
    }
  }

  lemma PrintLength(layout: Layout, r: Request, flag: Byte)
    requires Fits(r)
    ensures |Encode(layout, r, flag)| >= |r.sessionID| + |r.user| + 25
    ensures |Encode(Typed, r, flag)| == |Encode(Untyped, r, flag)| + 1
  {
  }

  /** Below the bound no payload with a session id reads in both layouts. */
  lemma BelowBound(data: Bytes)
    requires |data| < AMBIGUITY_BOUND && ReadString(data).Got? && ReadString(data).value != []
    ensures ReadAs(Typed, data).None? || ReadAs(Untyped, data).None?
  {
    if ReadAs(Untyped, data).Some? {
      var r := ReadAs(Untyped, data).value;
      var flag := ReadExact(Untyped, data);
      UntypedBody(r, flag);
      PrintLength(Untyped, r, flag);
      ConfusableExact(r, flag);
    }
  }

  function Zeros(n: nat): (z: Bytes)
    ensures |z| == n && forall i :: 0 <= i < n ==> z[i] == 0
  {
    seq(n, _ => 0)
  }

  lemma ZerosRead(n: nat, rest: Bytes)
    requires n >= 4
    ensures ReadString(Zeros(n) + rest) == Got([], Zeros(n - 4) + rest)
  {
    var d := Zeros(n) + rest;
    assert GetUint32(d) == 0;
    assert d[4..4] == [] && d[4..] == Zeros(n - 4) + rest;
  }

  lemma ZerosKey(sid: Bytes, user: Bytes, n: nat, rest: Bytes)
    requires n >= 8
    ensures ReadKey(sid, user, [], [], false, Zeros(n) + rest)
         == Some(Request(sid, user, [], [], false, [], [], Zeros(n - 8) + rest))
  {
    ZerosRead(n, rest);
    ZerosRead(n - 4, rest);
  }

  lemma ZerosMethod(sid: Bytes, user: Bytes, n: nat, rest: Bytes)
    requires n >= 13
    ensures ReadMethod(sid, user, [], Zeros(n) + rest)
         == Some(Request(sid, user, [], [], false, [], [], Zeros(n - 13) + rest))
  {
    ZerosRead(n, rest);
    var d := Zeros(n - 4) + rest;
    assert d[0] == 0 && d[1..] == Zeros(n - 5) + rest;
    ZerosKey(sid, user, n - 5, rest);
  }

  lemma ZerosTail(sid: Bytes, data: Bytes, user: Bytes, n: nat, rest: Bytes)
    requires n >= 17 && ReadString(data) == Got(user, Zeros(n) + rest)
    ensures ReadTail(sid, data) == Some(Request(sid, user, [], [], false, [], [], Zeros(n - 17) + rest))
  {
    ZerosRead(n, rest);
    ZerosMethod(sid, user, n - 4, rest);
  }

  /** A user name of zeros, as long as the message number makes the first byte of its length say. */
  const LONG_USER := 0x3200_0000

  lemma LongUserConfuses(r: Request, flag: Byte)
    requires Fits(r) && r.user == Zeros(LONG_USER)
    ensures Confusable(r, flag)
    ensures ReadTail(r.sessionID, PutTail(r, flag)[1..]).value.user == []
  {
    var rest := PutString(r.service) + PutMethod(r, flag);
    var d := PutTail(r, flag)[1..];
    LongUserLength();
    assert d == Zeros(3 + LONG_USER) + rest by {
      assert PutTail(r, flag) == PutUint32(LONG_USER) + Zeros(LONG_USER) + rest;
    }
    ZerosRead(3 + LONG_USER, rest);
    ZerosTail(r.sessionID, d, [], LONG_USER - 1, rest);
  }

  lemma LongUserLength()
    ensures PutUint32(LONG_USER) == [MSG_USERAUTH_REQUEST, 0, 0, 0]
  {
  }

  /** The shortest request that is confusable. */
  function AmbiguousRequest(): Request {
    Request([1], Zeros(LONG_USER), [], [], false, [], [], [])
  }

  /** The bound is sharp: at that length there is a payload both layouts read, and this untyped print
      no longer parses back. */
  lemma BoundIsSharp()
    ensures Fits(AmbiguousRequest()) && |Encode(Untyped, AmbiguousRequest(), 0)| == AMBIGUITY_BOUND
    ensures var data := Encode(Untyped, AmbiguousRequest(), 0);
            ReadAs(Typed, data).Some? && ReadAs(Untyped, data).Some? && Parse(data) != Ok(AmbiguousRequest())
  {
    LongUserConfuses(AmbiguousRequest(), 0);
    ConfusableExact(AmbiguousRequest(), 0);
    ReadRoundTrip(Untyped, AmbiguousRequest(), 0);
    ParseUntyped(AmbiguousRequest(), 0);
  }

  /** Any typed payload with a session id parses back, without a size limit. */
  lemma ParseTyped(r: Request, flag: Byte)
    requires Fits(r) && FlagFor(r, flag) && r.sessionID != []
    ensures Parse(Encode(Typed, r, flag)) == Ok(r)
  {
    ReadRoundTrip(Typed, r, flag);
  }

  /** An untyped one parses back exactly when it is not confusable. */
  lemma ParseUntyped(r: Request, flag: Byte)
    requires Fits(r) && FlagFor(r, flag) && r.sessionID != []
    ensures Parse(Encode(Untyped, r, flag)) == Ok(r) <==> !Confusable(r, flag)
  {
    var data := Encode(Untyped, r, flag);
    ReadRoundTrip(Untyped, r, flag);
    UntypedBody(r, flag);
    ConfusableExact(r, flag);
    if Confusable(r, flag) {
      var typed := ReadAs(Typed, data).value;
      var flag' := ReadExact(Typed, data);
      TailSession(r.sessionID, PutTail(r, flag)[1..]);
      if typed == r {
        PrintLength(Typed, r, flag);
        PrintLength(Typed, r, flag');
        assert false;
      }
    }
  }

  lemma TailSession(sid: Bytes, data: Bytes)
    ensures ReadTail(sid, data).Some? ==> ReadTail(sid, data).value.sessionID == sid
  {
  }

  lemma ParseSound(data: Bytes) returns (layout: Layout, flag: Byte)
    requires Parse(data).Ok?
    ensures var r := Parse(data).value;
            r.sessionID != [] && Fits(r) && FlagFor(r, flag) && data == Encode(layout, r, flag)
  {
    var typed := ReadAs(Typed, data);
    layout := if typed.Some? && typed.value.sessionID != [] then Typed else Untyped;
    flag := ReadExact(layout, data);
  }

  // --- Validation ---

  /** A public key is known by its wire form; parsing, verification and hashing stay abstract. */
  datatype PublicKey = PublicKey(wire: Bytes)

  datatype Signature = Signature(format: Bytes, blob: Bytes, rest: Bytes)

  datatype Crypto = Crypto(parseKey: Bytes -> Option<PublicKey>,
                           verify: (PublicKey, Bytes, Signature) -> bool,
                           sha256: Bytes -> Bytes)

  datatype Binding = Binding(hostPublicKey: string, sessionID: string, signature: string, forwarding: bool)

  datatype Validated = Validated(hostKeyFingerprint: string, sessionID: Bytes)

  function KeyFingerprint(c: Crypto, k: PublicKey): string {
    Fingerprint.Canonical(c.sha256(k.wire))
  }

  function DecodeRequired(s: string): Option<Bytes> {
    if s == "" then None
    else
      match Base64.StdDecode(s)
      case Some(b) => if b == [] then None else Some(b)
      case None => None
  }

  function ReadSignature(data: Bytes): Option<Signature> {
    match ReadString(data)
    case Short => None
    case Got(format, d) =>
      match ReadString(d)
      case Short => None
      case Got(blob, rest) => Some(Signature(format, blob, rest))
  }

  /** validateParsedUserAuth. */
  function CheckRequest(r: Request, user: Bytes, expected: Option<PublicKey>, host: PublicKey)
    : Outcome<(), BindingError>
  {
    if expected.None? || r.user != user || r.service != SERVICE || !r.hasSig || r.publicKey != expected.value.wire then
      Err(RequestMismatch)
    else if r.authMethod == METHOD_PUBLICKEY then
      if r.rest != [] then Err(TrailingData) else Ok(())
    else if r.authMethod == METHOD_HOSTBOUND then
      match ReadString(r.rest)
      case Got(key, tail) => if tail == [] && key == host.wire then Ok(()) else Err(HostBoundMismatch)
      case Short => Err(HostBoundMismatch)
    else Err(UnsupportedMethod)
  }

  /** validateUserAuthSignData. */
  function CheckPayload(data: Bytes, sid: Bytes, user: Bytes, expected: Option<PublicKey>, host: PublicKey)
    : Outcome<(), BindingError>
  {
    match Parse(data)
    case Err(e) => Err(e)
    case Ok(r) => if r.sessionID != sid then Err(RequestMismatch) else CheckRequest(r, user, expected, host)
  }

  /** validateDirectUserAuthSignData. */
  function CheckDirectPayload(data: Bytes, user: Bytes, expected: Option<PublicKey>, host: PublicKey)
    : Outcome<Bytes, BindingError>
  {
    match Parse(data)
    case Err(e) => Err(e)
    case Ok(r) =>
      match CheckRequest(r, user, expected, host)
      case Err(e) => Err(e)
      case Ok(_) => Ok(r.sessionID)
  }

  /** ValidateLocalKeySignData. */
  function ValidateBound(c: Crypto, b: Binding, data: Bytes, user: Bytes, expected: Option<PublicKey>)
    : Outcome<Validated, BindingError>
  {
    if b.forwarding then Err(Forwarding)
    else
      match DecodeRequired(b.hostPublicKey)
      case None => Err(HostPublicKey)
      case Some(wire) =>
        match c.parseKey(wire)
        case None => Err(HostPublicKey)
        case Some(host) =>
          match DecodeRequired(b.sessionID)
          case None => Err(SessionId)
          case Some(sid) =>
            match DecodeRequired(b.signature)
            case None => Err(BadSignature)
            case Some(sigWire) =>
              match ReadSignature(sigWire)
              case None => Err(BadSignature)
              case Some(sig) =>
                if !c.verify(host, sid, sig) then Err(BadSignature)
                else
                  match CheckPayload(data, sid, user, expected, host)
                  case Err(e) => Err(e)
                  case Ok(_) => Ok(Validated(KeyFingerprint(c, host), sid))
  }

  /** ValidateDirectLocalKeySignData. */
  function ValidateDirect(c: Crypto, hostPublicKey: string, data: Bytes, user: Bytes, expected: Option<PublicKey>)
    : Outcome<Validated, BindingError>
  {
    match DecodeRequired(hostPublicKey)
    case None => Err(HostPublicKey)
    case Some(wire) =>
      match c.parseKey(wire)
      case None => Err(HostPublicKey)
      case Some(host) =>
        match CheckDirectPayload(data, user, expected, host)
        case Err(e) => Err(e)
        case Ok(sid) => Ok(Validated(KeyFingerprint(c, host), sid))
  }

  // --- Acceptance, said without parsing ---

  /** The request a client must be asking to have signed; only the algorithm and the method are its choice. */
  function Intended(sid: Bytes, user: Bytes, key: PublicKey, host: PublicKey, hostbound: bool, algorithm: Bytes)
    : Request
    requires hostbound ==> |host.wire| < STRING_LIMIT
  {
    Request(sid, user, SERVICE, if hostbound then METHOD_HOSTBOUND else METHOD_PUBLICKEY, true,
            algorithm, key.wire, if hostbound then PutString(host.wire) else [])
  }

  /** The payload is, byte for byte, a print of an intended request in the layout. */
  ghost predicate IsPrint(layout: Layout, data: Bytes, sid: Bytes, user: Bytes, key: PublicKey, host: PublicKey) {
    exists hostbound: bool, algorithm: Bytes, flag: Byte ::
      IntendedPrint(data, layout, sid, user, key, host, hostbound, algorithm, flag)
  }

  /** It is one in either layout. */
  ghost predicate IsIntended(data: Bytes, sid: Bytes, user: Bytes, key: PublicKey, host: PublicKey) {
    IsPrint(Typed, data, sid, user, key, host) || IsPrint(Untyped, data, sid, user, key, host)
  }

  /** The typed reading, which is tried first, succeeds on a payload for an overlong user name. */
  predicate Shadowed(data: Bytes, user: Bytes) {
    LooksTyped(|user|) && ReadAs(Typed, data).Some?
  }

  /** It is an intended print that the typed reading does not take for something else. */
  ghost predicate Acceptable(data: Bytes, sid: Bytes, user: Bytes, key: PublicKey, host: PublicKey) {
    || IsPrint(Typed, data, sid, user, key, host)
    || (IsPrint(Untyped, data, sid, user, key, host) && !Shadowed(data, user))
  }

  predicate IntendedPrint(data: Bytes, layout: Layout, sid: Bytes, user: Bytes, key: PublicKey, host: PublicKey,
                          hostbound: bool, algorithm: Bytes, flag: Byte)
  {
    && (hostbound ==> |host.wire| < STRING_LIMIT)
    && flag != 0
    && var r := Intended(sid, user, key, host, hostbound, algorithm);
    Fits(r) && data == Encode(layout, r, flag)
  }

  /** The intended print, field by field as section 7 of RFC 4252 lists them. */
  lemma IntendedBytes(data: Bytes, layout: Layout, sid: Bytes, user: Bytes, key: PublicKey, host: PublicKey,
                      hostbound: bool, algorithm: Bytes, flag: Byte)
    requires |sid| < STRING_LIMIT && |user| < STRING_LIMIT && |algorithm| < STRING_LIMIT && |key.wire| < STRING_LIMIT
    requires (hostbound ==> |host.wire| < STRING_LIMIT) && flag != 0
    ensures IntendedPrint(data, layout, sid, user, key, host, hostbound, algorithm, flag) <==>
            data == PutString(sid) + (if layout.Typed? then [50] else []) + PutString(user)
                  + PutString(Ascii("ssh-connection"))
                  + PutString(Ascii(if hostbound then "publickey-hostbound-v00@openssh.com" else "publickey"))
                  + [flag] + PutString(algorithm) + PutString(key.wire)
                  + if hostbound then PutString(host.wire) else []
  {
    var r := Intended(sid, user, key, host, hostbound, algorithm);
    FlatPrint(layout, r, flag);
  }

  lemma FlatPrint(layout: Layout, r: Request, flag: Byte)
    requires Fits(r)
    ensures Encode(layout, r, flag) == PutString(r.sessionID) + (if layout.Typed? then [50] else []) + PutString(r.user)
                                     + PutString(r.service) + PutString(r.authMethod) + [flag]
                                     + PutString(r.algorithm) + PutString(r.publicKey) + r.rest
  {
    Regroup(PutString(r.authMethod), [flag], PutString(r.algorithm), PutString(r.publicKey), r.rest);
    var t := [50];
    assert layout.Untyped? ==> PutString(r.sessionID) + [] == PutString(r.sessionID);
    Regroup(PutString(r.sessionID), if layout.Typed? then t else [], PutString(r.user), PutString(r.service),
         PutMethod(r, flag));
    LeadEnd(PutString(r.sessionID) + (if layout.Typed? then t else []) + PutString(r.user) + PutString(r.service),
            PutString(r.authMethod), [flag], PutString(r.algorithm), PutString(r.publicKey), r.rest);
    assert layout.Untyped? ==> [] + PutTail(r, flag) == PutTail(r, flag);
  }

  lemma Regroup(a: Bytes, b: Bytes, c: Bytes, d: Bytes, e: Bytes)
    ensures a + (b + (c + (d + e))) == a + b + c + d + e
  {
  }

  lemma LeadEnd(l: Bytes, a: Bytes, b: Bytes, c: Bytes, d: Bytes, e: Bytes)
    ensures l + (a + b + c + d + e) == l + a + b + c + d + e
  {
  }

  lemma MethodsDiffer()
    ensures METHOD_PUBLICKEY != METHOD_HOSTBOUND
  {
    assert |METHOD_PUBLICKEY| == 9 && |METHOD_HOSTBOUND| == 35;
  }

  /** The request check passes exactly on the intended requests. */
  lemma CheckRequestExact(r: Request, user: Bytes, key: PublicKey, host: PublicKey)
    ensures CheckRequest(r, user, Some(key), host).Ok? <==>
            || r == Intended(r.sessionID, user, key, host, false, r.algorithm)
            || (|host.wire| < STRING_LIMIT && r == Intended(r.sessionID, user, key, host, true, r.algorithm))
  {
    MethodsDiffer();
    if ReadString(r.rest).Got? {
      StringExact(r.rest);
    }
    if |host.wire| < STRING_LIMIT {
      StringRoundTrip(host.wire, []);
      assert PutString(host.wire) + [] == PutString(host.wire);
    }
  }

  lemma CheckedIsPrint(data: Bytes, layout: Layout, r: Request, flag: Byte, user: Bytes, key: PublicKey,
                       host: PublicKey)
    requires Fits(r) && FlagFor(r, flag) && data == Encode(layout, r, flag)
    requires CheckRequest(r, user, Some(key), host).Ok?
    ensures IsPrint(layout, data, r.sessionID, user, key, host)
  {
    CheckRequestExact(r, user, key, host);
    var hostbound := r != Intended(r.sessionID, user, key, host, false, r.algorithm);
    assert IntendedPrint(data, layout, r.sessionID, user, key, host, hostbound, r.algorithm, flag);
  }

  /** Only acceptable payloads are accepted, of any size. */
  lemma AcceptedIsIntended(data: Bytes, sid: Bytes, user: Bytes, key: PublicKey, host: PublicKey)
    requires CheckPayload(data, sid, user, Some(key), host).Ok?
    ensures sid != [] && Acceptable(data, sid, user, key, host) && IsIntended(data, sid, user, key, host)
  {
    var r := Parse(data).value;
    var layout, flag := ParseSound(data);
    CheckedIsPrint(data, layout, r, flag, user, key, host);
    if layout.Untyped? {
      ConfusableExact(r, flag);
      ParseUntyped(r, flag);
    }
  }

  /** Every acceptable payload is accepted, of any size. */
  lemma IntendedIsAccepted(data: Bytes, layout: Layout, sid: Bytes, user: Bytes, key: PublicKey, host: PublicKey,
                           hostbound: bool, algorithm: Bytes, flag: Byte)
    requires sid != [] && IntendedPrint(data, layout, sid, user, key, host, hostbound, algorithm, flag)
    requires layout.Untyped? ==> !Shadowed(data, user)
    ensures CheckPayload(data, sid, user, Some(key), host).Ok?
  {
    var r := Intended(sid, user, key, host, hostbound, algorithm);
    CheckRequestExact(r, user, key, host);
    match layout {
      case Typed => ParseTyped(r, flag);
      case Untyped =>
        ConfusableExact(r, flag);
        ParseUntyped(r, flag);
    }
  }

  /** Acceptance in both directions, for payloads of every size and every user name. */
  lemma AcceptanceExact(data: Bytes, sid: Bytes, user: Bytes, key: PublicKey, host: PublicKey)
    ensures CheckPayload(data, sid, user, Some(key), host).Ok? <==> sid != [] && Acceptable(data, sid, user, key, host)
  {
    if CheckPayload(data, sid, user, Some(key), host).Ok? {
      AcceptedIsIntended(data, sid, user, key, host);
    }
    if sid != [] && Acceptable(data, sid, user, key, host) {
      var layout := if IsPrint(Typed, data, sid, user, key, host) then Typed else Untyped;
      var hostbound, algorithm, flag :|
        IntendedPrint(data, layout, sid, user, key, host, hostbound, algorithm, flag);
      IntendedIsAccepted(data, layout, sid, user, key, host, hostbound, algorithm, flag);
    }
  }

  /** For a user name of ordinary length, and for any payload below the bound, the intended prints of
      both layouts are acceptable. */
  lemma OrdinarilyAcceptable(data: Bytes, sid: Bytes, user: Bytes, key: PublicKey, host: PublicKey)
    requires !LooksTyped(|user|) || (sid != [] && |data| < AMBIGUITY_BOUND)
    ensures Acceptable(data, sid, user, key, host) <==> IsIntended(data, sid, user, key, host)
  {
    if LooksTyped(|user|) && IsPrint(Untyped, data, sid, user, key, host) {
      var hostbound, algorithm, flag :|
        IntendedPrint(data, Untyped, sid, user, key, host, hostbound, algorithm, flag);
      PrintLength(Untyped, Intended(sid, user, key, host, hostbound, algorithm), flag);
    }
  }

  lemma LongUserParses(r: Request, flag: Byte)
    requires Fits(r) && r.user == Zeros(LONG_USER) && r.sessionID != []
    ensures Parse(Encode(Untyped, r, flag)).Ok? && Parse(Encode(Untyped, r, flag)).value.user != r.user
  {
    LongUserConfuses(r, flag);
    UntypedBody(r, flag);
    TailSession(r.sessionID, PutTail(r, flag)[1..]);
    assert |r.user| != 0;
  }

  lemma WrongUser(data: Bytes, sid: Bytes, user: Bytes, key: PublicKey, host: PublicKey)
    requires Parse(data).Ok? && Parse(data).value.user != user
    ensures CheckPayload(data, sid, user, Some(key), host).Err?
  {
  }

  /** The condition is needed: for this user name no untyped print of an intended request is accepted,
      whatever the session, keys, method and algorithm. */
  lemma LongUserRefused(data: Bytes, sid: Bytes, user: Bytes, key: PublicKey, host: PublicKey, hostbound: bool,
                        algorithm: Bytes, flag: Byte)
    requires sid != [] && user == Zeros(LONG_USER)
    requires IntendedPrint(data, Untyped, sid, user, key, host, hostbound, algorithm, flag)
    ensures IsIntended(data, sid, user, key, host) && CheckPayload(data, sid, user, Some(key), host).Err?
  {
    LongUserParses(Intended(sid, user, key, host, hostbound, algorithm), flag);
    WrongUser(data, sid, user, key, host);
  }

  // --- The exported validators ---

  /** The host key and session id of a binding whose signature by the host verifies. */
  function Proven(c: Crypto, b: Binding): Option<(PublicKey, Bytes)> {
    match (DecodeRequired(b.hostPublicKey), DecodeRequired(b.sessionID), DecodeRequired(b.signature))
    case (Some(wire), Some(sid), Some(sigWire)) =>
      (match (c.parseKey(wire), ReadSignature(sigWire))
       case (Some(host), Some(sig)) => if c.verify(host, sid, sig) then Some((host, sid)) else None
       case _ => None)
    case _ => None
  }

  /** A binding printed in base64, with a signature of the host over the session, proves both. */
  lemma PrintedProves(c: Crypto, b: Binding, wire: Bytes, host: PublicKey, sid: Bytes, sig: Signature)
    requires wire != [] && sid != [] && c.parseKey(wire) == Some(host) && c.verify(host, sid, sig)
    requires |sig.format| < STRING_LIMIT && |sig.blob| < STRING_LIMIT
    requires b.hostPublicKey == Base64.StdEncode(wire) && b.sessionID == Base64.StdEncode(sid)
    requires b.signature == Base64.StdEncode(PutString(sig.format) + (PutString(sig.blob) + sig.rest))
    ensures Proven(c, b) == Some((host, sid))
  {
    var sigWire := PutString(sig.format) + (PutString(sig.blob) + sig.rest);
    RequiredRoundTrip(wire);
    RequiredRoundTrip(sid);
    RequiredRoundTrip(sigWire);
    StringRoundTrip(sig.format, PutString(sig.blob) + sig.rest);
    StringRoundTrip(sig.blob, sig.rest);
  }

  lemma RequiredRoundTrip(d: Bytes)
    requires d != []
    ensures DecodeRequired(Base64.StdEncode(d)) == Some(d)
  {
    Base64.StdRoundTrip(d);
    Base64.EmptyText();
  }

  /** A session-bound request passes exactly when its binding is proven, not forwarded, and the
      payload is an acceptable one for the bound session and host; the approval then carries the
      fingerprint of that host. */
  lemma BoundAcceptanceExact(c: Crypto, b: Binding, data: Bytes, user: Bytes, key: PublicKey)
    ensures var v := ValidateBound(c, b, data, user, Some(key));
            && (v.Ok? <==>
                  && !b.forwarding && Proven(c, b).Some?
                  && Acceptable(data, Proven(c, b).value.1, user, key, Proven(c, b).value.0))
            && (v.Ok? ==>
                  && v.value.sessionID == Proven(c, b).value.1
                  && v.value.hostKeyFingerprint == Base64.RawEncode(c.sha256(Proven(c, b).value.0.wire)))
  {
    if Proven(c, b).Some? {
      var (host, sid) := Proven(c, b).value;
      AcceptanceExact(data, sid, user, key, host);
    }
  }

  /** A direct request passes exactly when its host key parses and the payload is an acceptable one
      for that host and some session, the one reported back. */
  lemma DirectAcceptanceExact(c: Crypto, hostPublicKey: string, data: Bytes, user: Bytes, key: PublicKey, sid: Bytes)
    ensures var host := match DecodeRequired(hostPublicKey) case None => None case Some(wire) => c.parseKey(wire);
            var v := ValidateDirect(c, hostPublicKey, data, user, Some(key));
            (v.Ok? && v.value.sessionID == sid) <==>
                host.Some? && sid != [] && Acceptable(data, sid, user, key, host.value)
  {
    var wire := DecodeRequired(hostPublicKey);
    if wire.Some? && c.parseKey(wire.value).Some? {
      AcceptanceExact(data, sid, user, key, c.parseKey(wire.value).value);
    }
  }

  /** Without a hosted key nothing passes. */
  lemma NoKeyNoAcceptance(c: Crypto, b: Binding, hostPublicKey: string, data: Bytes, user: Bytes)
    ensures ValidateBound(c, b, data, user, None).Err? && ValidateDirect(c, hostPublicKey, data, user, None).Err?
  {
  }

  const MAX_AGENT_SIGN_DATA := 12 * 1024

  /** The sign handler's cap on the base64 text keeps every payload below the bound. */
  lemma HandlerCapSuffices(agentSignData: string)
    requires |agentSignData| <= MAX_AGENT_SIGN_DATA && Base64.StdDecode(agentSignData).Some?
    ensures |Base64.StdDecode(agentSignData).value| < AMBIGUITY_BOUND
  {
    Base64.StdDecodeLength(agentSignData);
  }
}
