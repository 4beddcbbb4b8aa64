/** Base64 (sections 4 and 3.2 of RFC 4648) and base16 (section 8 of RFC 4648) as Go's
    encoding/base64 and encoding/hex read and print them. */
module Base64 {
  import opened Prelude

  type Sextet = v: int | 0 <= v < 64

  const PAD := '='

  // --- The standard alphabet ---

  function Digit(v: Sextet): char {
    if v < 26 then 'A' + v as char
    else if v < 52 then 'a' + (v - 26) as char
    else if v < 62 then '0' + (v - 52) as char
    else if v == 62 then '+' else '/'
  }

  function Value(c: char): Option<Sextet> {
    if 'A' <= c <= 'Z' then Some((c - 'A') as int)
    else if 'a' <= c <= 'z' then Some((c - 'a') as int + 26)
    else if '0' <= c <= '9' then Some((c - '0') as int + 52)
    else if c == '+' then Some(62)
    else if c == '/' then Some(63)
    else None
  }

  predicate InAlphabet(s: string) {
    forall c :: c in s ==> Value(c).Some?
  }

  lemma DigitValue(v: Sextet)
    ensures Value(Digit(v)) == Some(v)
  {
  }

  // --- Printing ---

  /** RawStdEncoding.EncodeToString: no padding. */
  function RawEncode(d: Bytes): string
    decreases |d|
  {
    if |d| == 0 then ""
    else if |d| == 1 then [Digit(d[0] / 4), Digit(d[0] % 4 * 16)]
    else if |d| == 2 then [Digit(d[0] / 4), Digit(d[0] % 4 * 16 + d[1] / 16), Digit(d[1] % 16 * 4)]
    else Quad(d[0], d[1], d[2]) + RawEncode(d[3..])
  }

  function Quad(a: Byte, b: Byte, c: Byte): (s: string)
    ensures |s| == 4
  {
    [Digit(a / 4), Digit(a % 4 * 16 + b / 16), Digit(b % 16 * 4 + c / 64), Digit(c % 64)]
  }

  function Padding(n: nat): string {
    if n % 3 == 1 then "==" else if n % 3 == 2 then "=" else ""
  }

  /** StdEncoding.EncodeToString: padded to a multiple of four. */
  function StdEncode(d: Bytes): string {
    RawEncode(d) + Padding(|d|)
  }

  // --- Reading ---

  predicate IsNewline(c: char) {
    c == '\r' || c == '\n'
  }

  /** Go's decoders skip carriage returns and line feeds anywhere in the input. */
  function SkipNewlines(s: string): string {
    if s == "" then ""
    else if IsNewline(s[0]) then SkipNewlines(s[1..])
    else [s[0]] + SkipNewlines(s[1..])
  }

  function Triple(a: Sextet, b: Sextet, c: Sextet, d: Sextet): (t: Bytes)
    ensures |t| == 3
  {
    [a * 4 + b / 16, b % 16 * 16 + c / 4, c % 4 * 64 + d]
  }

  /** The quanta of an unpadded text. Unused low bits of a short last quantum are dropped,
      since the decoders are not strict. */
  function DecodeQuanta(s: string): Option<Bytes>
    decreases |s|
  {
    if |s| == 0 then Some([])
    else if |s| == 1 then None
    else
      match (Value(s[0]), Value(s[1]))
      case (Some(a), Some(b)) =>
        if |s| == 2 then Some([a * 4 + b / 16])
        else (
          match Value(s[2])
          case None => None
          case Some(c) =>
            if |s| == 3 then Some([a * 4 + b / 16, b % 16 * 16 + c / 4])
            else (
              match (Value(s[3]), DecodeQuanta(s[4..]))
              case (Some(d), Some(rest)) => Some(Triple(a, b, c, d) + rest)
              case _ => None))
      case _ => None
  }

  /** RawStdEncoding.DecodeString. */
  function RawDecode(s: string): Option<Bytes> {
    DecodeQuanta(SkipNewlines(s))
  }

  /** StdEncoding.DecodeString: the text must come in fours and only its last four may be padded. */
  function StdDecode(s: string): Option<Bytes> {
    var t := SkipNewlines(s);
    if |t| % 4 != 0 then None
    else if t != "" && t[|t| - 1] == PAD then
      if t[|t| - 2] == PAD then DecodeQuanta(t[..|t| - 2]) else DecodeQuanta(t[..|t| - 1])
    else DecodeQuanta(t)
  }

  // --- Round trips ---

  lemma {:induction false} RawEncodeShape(d: Bytes)
    ensures InAlphabet(RawEncode(d))
    ensures |RawEncode(d)| == (4 * |d| + 2) / 3
    decreases |d|
  {
    forall v: Sextet { DigitValue(v); }
    if |d| >= 3 {
      RawEncodeShape(d[3..]);
      var rest := RawEncode(d[3..]);
      forall c | c in RawEncode(d) ensures Value(c).Some? {
        assert c in Quad(d[0], d[1], d[2]) || c in rest;
      }
    }
  }

  lemma {:induction false} SkipNewlinesIdle(s: string)
    requires InAlphabet(s)
    ensures SkipNewlines(s) == s
  {
    if s != "" {
      assert Value(s[0]).Some?;
      assert InAlphabet(s[1..]);
      SkipNewlinesIdle(s[1..]);
    }
  }

  lemma QuadTriple(a: Byte, b: Byte, c: Byte)
    ensures Triple(a / 4, a % 4 * 16 + b / 16, b % 16 * 4 + c / 64, c % 64) == [a, b, c]
  {
  }

  lemma QuantumStep(s: string, rest: Bytes, a: Sextet, b: Sextet, c: Sextet, d: Sextet)
    requires |s| >= 4
    requires Value(s[0]) == Some(a) && Value(s[1]) == Some(b) && Value(s[2]) == Some(c) && Value(s[3]) == Some(d)
    requires DecodeQuanta(s[4..]) == Some(rest)
    ensures DecodeQuanta(s) == Some(Triple(a, b, c, d) + rest)
  {
  }

  lemma QuadDecodes(a: Byte, b: Byte, c: Byte, tail: string, rest: Bytes)
    requires DecodeQuanta(tail) == Some(rest)
    ensures DecodeQuanta(Quad(a, b, c) + tail) == Some([a, b, c] + rest)
  {
    var w, x, y, z := a / 4, a % 4 * 16 + b / 16, b % 16 * 4 + c / 64, c % 64;
    DigitValue(w);
    DigitValue(x);
    DigitValue(y);
    DigitValue(z);
    var s := Quad(a, b, c) + tail;
    assert s[4..] == tail;
    QuantumStep(s, rest, w, x, y, z);
    QuadTriple(a, b, c);
  }

  lemma OneByte(a: Byte)
    ensures DecodeQuanta(RawEncode([a])) == Some([a])
  {
    DigitValue(a / 4);
    DigitValue(a % 4 * 16);
  }

  lemma TwoBytes(a: Byte, b: Byte)
    ensures DecodeQuanta(RawEncode([a, b])) == Some([a, b])
  {
    var x, y, z := a / 4, a % 4 * 16 + b / 16, b % 16 * 4;
    DigitValue(x);
    DigitValue(y);
    DigitValue(z);
    assert RawEncode([a, b]) == [Digit(x), Digit(y), Digit(z)];
    assert x * 4 + y / 16 == a && y % 16 * 16 + z / 4 == b;
  }

  lemma ShortQuanta(d: Bytes)
    requires |d| < 3
    ensures DecodeQuanta(RawEncode(d)) == Some(d)
  {
    if |d| == 1 {
      assert d == [d[0]];
      OneByte(d[0]);
    } else if |d| == 2 {
      assert d == [d[0], d[1]];
      TwoBytes(d[0], d[1]);
    }
  }

  lemma {:induction false} QuantaRoundTrip(d: Bytes)
    ensures DecodeQuanta(RawEncode(d)) == Some(d)
    decreases |d|
  {
    if |d| < 3 {
      ShortQuanta(d);
    } else {
      var rest := d[3..];
      QuantaRoundTrip(rest);
      QuadDecodes(d[0], d[1], d[2], RawEncode(rest), rest);
      assert d == [d[0], d[1], d[2]] + rest;
    }
  }

  /** Every byte string survives the unpadded codec. */
  lemma RawRoundTrip(d: Bytes)
    ensures RawDecode(RawEncode(d)) == Some(d)
  {
    RawEncodeShape(d);
    SkipNewlinesIdle(RawEncode(d));
    QuantaRoundTrip(d);
  }

  lemma {:induction false} SkipNewlinesAppend(s: string, t: string)
    ensures SkipNewlines(s + t) == SkipNewlines(s) + SkipNewlines(t)
  {
    if s == "" {
      assert s + t == t;
    } else {
      assert (s + t)[1..] == s[1..] + t;
      SkipNewlinesAppend(s[1..], t);
    }
  }

  lemma PaddingIdle(n: nat)
    ensures SkipNewlines(Padding(n)) == Padding(n)
  {
    assert SkipNewlines("=") == "=";
    assert "=="[1..] == "=";
  }

  lemma NotPad(s: string, i: nat)
    requires InAlphabet(s) && i < |s|
    ensures s[i] != PAD
  {
    assert s[i] in s;
  }

  /** Every byte string survives the padded codec. */
  lemma StdRoundTrip(d: Bytes)
    ensures StdDecode(StdEncode(d)) == Some(d)
  {
    QuantaRoundTrip(d);
    RawEncodeShape(d);
    StripStdPadding(RawEncode(d), |d|);
  }

  lemma StripStdPadding(r: string, n: nat)
    requires InAlphabet(r) && |r| == (4 * n + 2) / 3
    ensures StdDecode(r + Padding(n)) == DecodeQuanta(r)
  {
    var p := Padding(n);
    SkipNewlinesIdle(r);
    SkipNewlinesAppend(r, p);
    PaddingIdle(n);
    PaddedLength(n);
    assert p in {"", "=", "=="};
    StripPadding(r, p);
  }

  lemma PaddedLength(n: nat)
    ensures ((4 * n + 2) / 3 + |Padding(n)|) % 4 == 0
    ensures n > 0 ==> (4 * n + 2) / 3 >= 2
  {
    var k := n / 3;
    assert n == 3 * k + n % 3;
    if n % 3 == 0 {
      assert (4 * n + 2) / 3 == 4 * k;
    } else if n % 3 == 1 {
      assert (4 * n + 2) / 3 == 4 * k + 2;
    } else {
      assert (4 * n + 2) / 3 == 4 * k + 3;
    }
  }

  lemma StripPadding(r: string, p: string)
    requires InAlphabet(r) && p in {"", "=", "=="} && (p != "" ==> |r| >= 2)
    requires |r + p| % 4 == 0 && SkipNewlines(r + p) == r + p
    ensures StdDecode(r + p) == DecodeQuanta(r)
  {
    var t := r + p;
    if r != "" {
      NotPad(r, |r| - 1);
    }
    if p == "==" {
      assert t[..|t| - 2] == r;
    } else if p == "=" {
      assert t[|t| - 2] == r[|r| - 1];
      assert t[..|t| - 1] == r;
    } else {
      assert t == r;
    }
  }

  // --- Sizes ---

  lemma {:induction false} QuantaLength(s: string)
    ensures DecodeQuanta(s).Some? ==> |DecodeQuanta(s).value| == |s| * 3 / 4
    decreases |s|
  {
    if |s| >= 4 {
      QuantaLength(s[4..]);
    }
  }

  lemma {:induction false} SkipNewlinesLength(s: string)
    ensures |SkipNewlines(s)| <= |s|
  {
    if s != "" {
      SkipNewlinesLength(s[1..]);
    }
  }

  /** A base64 text never decodes to more than three quarters of its length. */
  lemma StdDecodeLength(s: string)
    ensures StdDecode(s).Some? ==> 4 * |StdDecode(s).value| <= 3 * |s|
  {
    SkipNewlinesLength(s);
    var t := SkipNewlines(s);
    QuantaLength(t);
    if |t| >= 4 {
      QuantaLength(t[..|t| - 2]);
      QuantaLength(t[..|t| - 1]);
    }
  }

  // --- Base16 ---

  type Nibble = v: int | 0 <= v < 16

  function HexDigit(v: Nibble): char {
    if v < 10 then '0' + v as char else 'a' + (v - 10) as char
  }

  function HexValue(c: char): Option<Nibble> {
    if '0' <= c <= '9' then Some((c - '0') as int)
    else if 'a' <= c <= 'f' then Some((c - 'a') as int + 10)
    else if 'A' <= c <= 'F' then Some((c - 'A') as int + 10)
    else None
  }

  /** hex.EncodeToString: lower case digits. */
  function HexEncode(d: Bytes): string {
    if d == [] then "" else [HexDigit(d[0] / 16), HexDigit(d[0] % 16)] + HexEncode(d[1..])
  }

  function Join(h: Nibble, l: Nibble): Byte {
    (h as int) * 16 + l
  }

  /** hex.DecodeString: digits of either case. */
  function HexDecode(s: string): Option<Bytes>
    decreases |s|
  {
    if |s| == 0 then Some([])
    else if |s| == 1 then None
    else
      match (HexValue(s[0]), HexValue(s[1]), HexDecode(s[2..]))
      case (Some(h), Some(l), Some(rest)) => Some([Join(h, l)] + rest)
      case _ => None
  }

  /** Hex text of any letter case denotes the bytes. */
  predicate HexOf(s: string, d: Bytes) {
    && |s| == 2 * |d|
    && forall i :: 0 <= i < |d| ==> HexValue(s[2 * i]) == Some(d[i] / 16) && HexValue(s[2 * i + 1]) == Some(d[i] % 16)
  }

  lemma {:induction false} HexEncodeIsHex(d: Bytes)
    ensures HexOf(HexEncode(d), d)
  {
    if d != [] {
      HexEncodeIsHex(d[1..]);
      var s, t := HexEncode(d), HexEncode(d[1..]);
      forall i | 0 <= i < |d|
        ensures HexValue(s[2 * i]) == Some(d[i] / 16) && HexValue(s[2 * i + 1]) == Some(d[i] % 16)
      {
        if i > 0 {
          assert s[2 * i] == t[2 * (i - 1)] && s[2 * i + 1] == t[2 * (i - 1) + 1];
          assert d[i] == d[1..][i - 1];
        }
      }
    }
  }

  /** Hex decoding accepts exactly the texts that denote the bytes, whatever their letter case. */
  lemma {:induction false} HexDecodeExact(s: string, d: Bytes)
    ensures HexDecode(s) == Some(d) <==> HexOf(s, d)
    decreases |s|
  {
    if |s| >= 2 && d != [] {
      HexDecodeExact(s[2..], d[1..]);
      HexOfTail(s, d);
      HexDecodeHead(s, d);
    }
  }

  lemma HexDecodeHead(s: string, d: Bytes)
    requires |s| >= 2 && d != []
    ensures HexDecode(s) == Some(d) <==>
            HexValue(s[0]) == Some(d[0] / 16) && HexValue(s[1]) == Some(d[0] % 16) && HexDecode(s[2..]) == Some(d[1..])
  {
    assert d == [d[0]] + d[1..];
    match (HexValue(s[0]), HexValue(s[1]), HexDecode(s[2..])) {
      case (Some(h), Some(l), Some(rest)) =>
        JoinSplit(h, l, d[0]);
        assert ([Join(h, l)] + rest)[1..] == rest;
      case _ =>
    }
  }

  lemma JoinSplit(h: Nibble, l: Nibble, b: Byte)
    ensures Join(h, l) == b <==> h == b / 16 && l == b % 16
  {
  }

  lemma HexOfTail(s: string, d: Bytes)
    requires |s| >= 2 && d != []
    ensures HexOf(s, d) <==>
            HexValue(s[0]) == Some(d[0] / 16) && HexValue(s[1]) == Some(d[0] % 16) && HexOf(s[2..], d[1..])
  {
    var s', d' := s[2..], d[1..];
    if HexOf(s, d) {
      assert HexValue(s[2 * 0]) == Some(d[0] / 16) && HexValue(s[2 * 0 + 1]) == Some(d[0] % 16);
      forall i | 0 <= i < |d'|
        ensures HexValue(s'[2 * i]) == Some(d'[i] / 16) && HexValue(s'[2 * i + 1]) == Some(d'[i] % 16)
      {
        assert s'[2 * i] == s[2 * (i + 1)] && s'[2 * i + 1] == s[2 * (i + 1) + 1] && d'[i] == d[i + 1];
      }
    }
    if HexValue(s[0]) == Some(d[0] / 16) && HexValue(s[1]) == Some(d[0] % 16) && HexOf(s', d') {
      forall i | 0 <= i < |d|
        ensures HexValue(s[2 * i]) == Some(d[i] / 16) && HexValue(s[2 * i + 1]) == Some(d[i] % 16)
      {
        if i > 0 {
          assert s'[2 * (i - 1)] == s[2 * i] && s'[2 * (i - 1) + 1] == s[2 * i + 1] && d'[i - 1] == d[i];
        }
      }
    }
  }

  lemma EmptyText()
    ensures StdDecode("") == Some([])
  {
  }

  // --- Samples ---

  /** Samples of section 10 of RFC 4648: "f", "fo" and "foo", and one for the last two digits. */
  lemma Samples()
    ensures RawEncode([102]) == "Zg" && RawEncode([102, 111]) == "Zm8" && StdEncode([102]) == "Zg=="
    ensures Quad(102, 111, 111) == "Zm9v" && Quad(251, 255, 191) == "+/+/"
  {
  }

  lemma HexSample()
    ensures HexEncode([102, 0xA9]) == "66a9"
  {
    var d: Bytes := [102, 0xA9];
    assert d[1..] == [0xA9] && d[1..][1..] == [];
    assert HexEncode([0xA9]) == "a9";
  }
}
