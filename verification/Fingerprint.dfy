/** Canonical SHA256 fingerprints: the forms an operator or a client may type, and the one
    43-character form the proxy keeps. */
module Fingerprint {
  import opened Prelude
  import opened Base64
  import opened Strings

  const DIGEST_LENGTH := 32
  const PREFIX := "SHA256:"

  datatype HintError = EmptyFingerprint | InvalidFingerprint

  // --- Prefix and padding ---

  function TrimPad(s: string): string {
    if s != "" && s[|s| - 1] == PAD then TrimPad(s[..|s| - 1]) else s
  }

  function Pads(n: nat): string {
    seq(n, _ => PAD)
  }

  function TrimPrefix(s: string, prefix: string): string {
    if prefix <= s then s[|prefix|..] else s
  }

  // --- The canonicaliser ---

  /** fingerprintDigest, the text of Fingerprint for a SHA-256 sum. */
  function Canonical(digest: Bytes): string {
    RawEncode(digest)
  }

  function Normalize(s: string): string {
    TrimPad(TrimPrefix(TrimSpace(s), PREFIX))
  }

  function ParseHint(s: string): Outcome<string, HintError> {
    var t := Normalize(s);
    if t == "" then Err(EmptyFingerprint)
    else if |t| == 64 && HexDecode(t).Some? && |HexDecode(t).value| == DIGEST_LENGTH then
      Ok(Canonical(HexDecode(t).value))
    else
      match RawDecode(t)
      case None => Err(InvalidFingerprint)
      case Some(raw) => if |raw| == DIGEST_LENGTH then Ok(Canonical(raw)) else Err(InvalidFingerprint)
  }

  // --- Trimming ---

  lemma TrimPadOver(core: string, pads: nat)
    requires core != "" && core[|core| - 1] != PAD
    ensures TrimPad(core + Pads(pads)) == core
  {
    var p := Pads(pads);
    var s := core + p;
    if pads == 0 {
      assert s == core;
    } else {
      assert s[|s| - 1] == p[pads - 1] == PAD;
      assert s[..|s| - 1] == core + Pads(pads - 1);
      TrimPadOver(core, pads - 1);
    }
  }

  /** Texts over the two alphabets carry neither spaces, pads nor the prefix's colon. */
  predicate Plain(core: string) {
    core != "" && forall c :: c in core ==> Value(c).Some? || HexValue(c).Some?
  }

  lemma PlainChar(core: string, i: nat)
    requires Plain(core) && i < |core|
    ensures !IsSpace(core[i]) && core[i] != PAD && core[i] != ':'
  {
    assert core[i] in core;
  }

  lemma PlainHasNoPrefix(core: string, pads: string)
    requires Plain(core) && |core| >= |PREFIX|
    ensures !(PREFIX <= core + pads)
  {
    PlainChar(core, 6);
    assert (core + pads)[6] == core[6];
    assert PREFIX[6] == ':';
  }

  /** What normalisation makes of any spacing, an optional prefix and any padding. */
  lemma NormalizeForm(a: string, prefixed: bool, core: string, pads: nat, b: string)
    requires AllSpace(a) && AllSpace(b) && Plain(core) && |core| >= |PREFIX|
    ensures Normalize(a + (if prefixed then PREFIX else "") + core + Pads(pads) + b) == core
  {
    var p := Pads(pads);
    var body := core + p;
    var whole := if prefixed then PREFIX + body else body;
    PlainChar(core, 0);
    PlainChar(core, |core| - 1);
    assert a + (if prefixed then PREFIX else "") + core + p + b == a + whole + b;
    assert whole[|whole| - 1] == if pads > 0 then p[pads - 1] else core[|core| - 1];
    assert whole[0] == if prefixed then 'S' else core[0];
    TrimSpaceAround(a, whole, b);
    PlainHasNoPrefix(core, p);
    assert prefixed ==> whole[|PREFIX|..] == body;
    TrimPadOver(core, pads);
  }

  // --- Results ---

  lemma CanonicalPlain(d: Bytes)
    requires |d| == DIGEST_LENGTH
    ensures |Canonical(d)| == 43 && Plain(Canonical(d))
  {
    RawEncodeShape(d);
  }

  /** Every base64 form of a digest is resolved to the canonical one: raw or padded with any
      number of pads, with or without the prefix, inside any white space. */
  lemma Base64FormsAgree(d: Bytes, a: string, prefixed: bool, pads: nat, b: string)
    requires |d| == DIGEST_LENGTH && AllSpace(a) && AllSpace(b)
    ensures ParseHint(a + (if prefixed then PREFIX else "") + RawEncode(d) + Pads(pads) + b) == Ok(Canonical(d))
  {
    CanonicalPlain(d);
    NormalizeForm(a, prefixed, RawEncode(d), pads, b);
    RawRoundTrip(d);
  }

  /** So is every hex form, in either letter case. */
  lemma HexFormsAgree(d: Bytes, h: string, a: string, prefixed: bool, b: string)
    requires |d| == DIGEST_LENGTH && HexOf(h, d) && AllSpace(a) && AllSpace(b)
    ensures ParseHint(a + (if prefixed then PREFIX else "") + h + b) == Ok(Canonical(d))
  {
    HexPlain(h, d);
    var none := Pads(0);
    var lead := a + (if prefixed then PREFIX else "") + h;
    assert lead + none == lead;
    NormalizeForm(a, prefixed, h, 0, b);
    HexDecodeExact(h, d);
  }

  lemma HexPlain(h: string, d: Bytes)
    requires HexOf(h, d) && d != []
    ensures Plain(h)
  {
    forall c | c in h ensures HexValue(c).Some? {
      var j :| 0 <= j < |h| && h[j] == c;
      assert j == 2 * (j / 2) || j == 2 * (j / 2) + 1;
      assert HexValue(h[2 * (j / 2)]) == Some(d[j / 2] / 16);
    }
  }

  lemma Bare(lead: string, core: string, pads: string)
    ensures "" + lead + core + pads + "" == lead + core + pads
  {
  }

  lemma {:induction false} UsualForm(form: string, d: Bytes, prefixed: bool, pads: nat)
    requires |d| == DIGEST_LENGTH && form == (if prefixed then PREFIX else "") + RawEncode(d) + Pads(pads)
    ensures ParseHint(form) == Ok(Canonical(d))
  {
    Bare(if prefixed then PREFIX else "", RawEncode(d), Pads(pads));
    Base64FormsAgree(d, "", prefixed, pads, "");
  }

  lemma {:induction false} UsualHexForm(d: Bytes, h: string)
    requires |d| == DIGEST_LENGTH && HexOf(h, d)
    ensures ParseHint(h) == Ok(Canonical(d))
  {
    Bare("", "", h);
    assert "" + h == h;
    HexFormsAgree(d, h, "", false, "");
  }

  lemma FormTexts(text: string, n: nat)
    requires n % 3 == 2
    ensures text == "" + text + Pads(0)
    ensures text + Padding(n) == "" + text + Pads(1)
    ensures PREFIX + text == PREFIX + text + Pads(0)
  {
    assert Pads(1) == Padding(n);
  }

  /** The four usual forms of one digest meet in one 43-character text. */
  lemma FormsOfOneDigest(d: Bytes)
    requires |d| == DIGEST_LENGTH
    ensures ParseHint(RawEncode(d)) == Ok(RawEncode(d))
    ensures ParseHint(StdEncode(d)) == Ok(RawEncode(d))
    ensures ParseHint("SHA256:" + RawEncode(d)) == Ok(RawEncode(d))
    ensures ParseHint(HexEncode(d)) == Ok(RawEncode(d))
    ensures |RawEncode(d)| == 43
  {
    var text := RawEncode(d);
    CanonicalPlain(d);
    FormTexts(text, |d|);
    UsualForm(text, d, false, 0);
    UsualForm(text + Padding(|d|), d, false, 1);
    UsualForm(PREFIX + text, d, true, 0);
    HexEncodeIsHex(d);
    UsualHexForm(d, HexEncode(d));
  }

  lemma {:induction false} BareForm(core: string, prefixed: bool, pads: nat)
    requires Plain(core) && |core| >= |PREFIX|
    ensures Normalize((if prefixed then PREFIX else "") + core + Pads(pads)) == core
  {
    Bare(if prefixed then PREFIX else "", core, Pads(pads));
    NormalizeForm("", prefixed, core, pads, "");
  }

  lemma {:induction false} NormalTexts(text: string, n: nat)
    requires Plain(text) && |text| >= |PREFIX| && n % 3 == 2
    ensures Normalize(text) == text && Normalize(text + Padding(n)) == text && Normalize(PREFIX + text) == text
  {
    FormTexts(text, n);
    BareForm(text, false, 0);
    BareForm(text, false, 1);
    BareForm(text, true, 0);
  }

  lemma {:induction false} NormalHex(d: Bytes, h: string)
    requires HexOf(h, d) && |d| == DIGEST_LENGTH
    ensures Normalize(h) == h
  {
    HexPlain(h, d);
    NormalTexts(h, 2);
  }

  /** What normalisation leaves of the four usual forms. */
  lemma {:induction false} NormalForms(d: Bytes)
    requires |d| == DIGEST_LENGTH
    ensures Normalize(RawEncode(d)) == Normalize(StdEncode(d)) == Normalize(PREFIX + RawEncode(d)) == RawEncode(d)
    ensures Normalize(HexEncode(d)) == HexEncode(d)
  {
    CanonicalPlain(d);
    NormalTexts(RawEncode(d), |d|);
    HexEncodeIsHex(d);
    NormalHex(d, HexEncode(d));
  }

  /** Different digests never share a canonical text. */
  lemma CanonicalInjective(d: Bytes, e: Bytes)
    ensures Canonical(d) == Canonical(e) <==> d == e
  {
    RawRoundTrip(d);
    RawRoundTrip(e);
  }

  /** Hex in capitals, in small letters or mixed is the same fingerprint. */
  lemma {:induction false} LetterCaseIsIgnored(d: Bytes, h: string)
    requires |d| == DIGEST_LENGTH && |h| == 64 && forall i :: 0 <= i < 64 ==> SameLetter(HexEncodeAt(d, i), h[i])
    ensures ParseHint(h) == Ok(Canonical(d))
  {
    assert HexOf(h, d) by {
      forall i | 0 <= i < |d|
        ensures HexValue(h[2 * i]) == Some(d[i] / 16) && HexValue(h[2 * i + 1]) == Some(d[i] % 16)
      {
        SameByte(d, i, h);
      }
    }
    UsualHexForm(d, h);
  }

  lemma SameByte(d: Bytes, i: nat, h: string)
    requires i < |d| && |h| == 2 * |d| && forall j :: 0 <= j < |h| ==> SameLetter(HexEncodeAt(d, j), h[j])
    ensures HexValue(h[2 * i]) == Some(d[i] / 16) && HexValue(h[2 * i + 1]) == Some(d[i] % 16)
  {
    assert SameLetter(HexEncodeAt(d, 2 * i), h[2 * i]) && SameLetter(HexEncodeAt(d, 2 * i + 1), h[2 * i + 1]);
    SameValue(d[i] / 16, h[2 * i]);
    SameValue(d[i] % 16, h[2 * i + 1]);
  }

  /** The digit of a text in small letters, and the same digit in either case. */
  function HexEncodeAt(d: Bytes, i: nat): char
    requires i < 2 * |d|
  {
    "0123456789abcdef"[if i % 2 == 0 then d[i / 2] / 16 else d[i / 2] % 16]
  }

  predicate SameLetter(small: char, c: char) {
    c == small || ('a' <= small <= 'f' && c == "ABCDEF"[small as int - 'a' as int])
  }

  lemma SameValue(v: Nibble, c: char)
    requires SameLetter("0123456789abcdef"[v], c)
    ensures HexValue(c) == Some(v)
  {
  }

  /** Whatever is accepted is canonical already: parsing again changes nothing. */
  lemma ParseHintFixedPoint(s: string)
    requires ParseHint(s).Ok?
    ensures |ParseHint(s).value| == 43
    ensures ParseHint(ParseHint(s).value) == ParseHint(s)
  {
    var t := Normalize(s);
    var raw := if |t| == 64 && HexDecode(t).Some? && |HexDecode(t).value| == DIGEST_LENGTH
               then HexDecode(t).value else RawDecode(t).value;
    FormsOfOneDigest(raw);
  }
}
