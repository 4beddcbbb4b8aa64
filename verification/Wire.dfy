/** The data types of section 5 of RFC 4251 that SSH messages are built from. */
module Wire {
  import opened Prelude

  const STRING_LIMIT := 0x1_0000_0000

  datatype Read<+T> = Short | Got(value: T, rest: Bytes)

  function Ascii(s: string): (b: Bytes)
    ensures |b| == |s|
  {
    seq(|s|, i requires 0 <= i < |s| => s[i] as int % 256)
  }

  function PutUint32(n: nat): (b: Bytes)
    requires n < STRING_LIMIT
    ensures |b| == 4
  {
    [n / 256 / 256 / 256, n / 256 / 256 % 256, n / 256 % 256, n % 256]
  }

  function GetUint32(b: Bytes): (n: nat)
    requires |b| >= 4
    ensures n < STRING_LIMIT
  {
    ((b[0] as int * 256 + b[1]) * 256 + b[2]) * 256 + b[3]
  }

  function PutString(s: Bytes): (b: Bytes)
    requires |s| < STRING_LIMIT
    ensures |b| == 4 + |s|
  {
    PutUint32(|s|) + s
  }

  function ReadString(data: Bytes): Read<Bytes> {
    if |data| < 4 then Short
    else
      var n := GetUint32(data);
      if |data| - 4 < n then Short else Got(data[4..4 + n], data[4 + n..])
  }

  function ReadByte(data: Bytes): Read<Byte> {
    if |data| < 1 then Short else Got(data[0], data[1..])
  }

  lemma Uint32RoundTrip(n: nat, rest: Bytes)
    requires n < STRING_LIMIT
    ensures GetUint32(PutUint32(n) + rest) == n
  {
    var b := PutUint32(n) + rest;
    var q := n / 256;
    assert b[0] as int * 256 + b[1] == q / 256;
    assert (b[0] as int * 256 + b[1]) * 256 + b[2] == q;
  }

  lemma DivMod(q: nat, r: Byte)
    ensures (q * 256 + r) / 256 == q && (q * 256 + r) % 256 == r
  {
  }

  lemma Uint32Exact(b: Bytes)
    requires |b| >= 4
    ensures PutUint32(GetUint32(b)) == b[..4]
  {
    var q1: nat := b[0] as int * 256 + b[1];
    var q2: nat := q1 * 256 + b[2];
    DivMod(b[0], b[1]);
    DivMod(q1, b[2]);
    DivMod(q2, b[3]);
  }

  /** A printed string reads back, whatever follows it. */
  lemma StringRoundTrip(s: Bytes, rest: Bytes)
    requires |s| < STRING_LIMIT
    ensures ReadString(PutString(s) + rest) == Got(s, rest)
  {
    var d := PutString(s) + rest;
    assert d == PutUint32(|s|) + (s + rest);
    Uint32RoundTrip(|s|, s + rest);
    assert d[4..] == s + rest;
    assert d[4..4 + |s|] == s;
  }

  /** Whatever reads as a string is its printed form followed by the rest. */
  lemma StringExact(data: Bytes)
    requires ReadString(data).Got?
    ensures |ReadString(data).value| < STRING_LIMIT
    ensures data == PutString(ReadString(data).value) + ReadString(data).rest
  {
    Uint32Exact(data);
    var n := GetUint32(data);
    assert data == data[..4] + data[4..4 + n] + data[4 + n..];
  }

  /** Samples of section 5 of RFC 4251: the number 699921578 and the string "testing". */
  lemma Samples()
    ensures PutUint32(699921578) == [0x29, 0xB7, 0xF4, 0xAA]
    ensures PutString(Ascii("testing")) == [0, 0, 0, 7, 0x74, 0x65, 0x73, 0x74, 0x69, 0x6E, 0x67]
  {
    assert Ascii("testing") == [0x74, 0x65, 0x73, 0x74, 0x69, 0x6E, 0x67];
  }
}
