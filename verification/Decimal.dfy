/** Decimal integers as Go's strconv prints and reads them. */
module Decimal {
  import opened Prelude

  predicate IsDigit(c: char) {
    '0' <= c <= '9'
  }

  function Digit(d: nat): char
    requires d < 10
  {
    '0' + d as char
  }

  function Digits(n: nat): (s: string)
    ensures s != "" && forall c :: c in s ==> IsDigit(c)
  {
    if n < 10 then [Digit(n)] else Digits(n / 10) + [Digit(n % 10)]
  }

  /** strconv.Itoa and strconv.FormatInt in base ten. */
  function Itoa(n: int): string {
    if n < 0 then "-" + Digits(-n) else Digits(n)
  }

  /** The number a non-empty run of digits denotes. */
  function ReadDigits(s: string): Option<nat> {
    if s == "" then None
    else if !IsDigit(s[|s| - 1]) then None
    else
      var d := (s[|s| - 1] - '0') as int;
      if |s| == 1 then Some(d)
      else
        match ReadDigits(s[..|s| - 1])
        case None => None
        case Some(n) => Some(n * 10 + d)
  }

  /** strconv.Atoi and strconv.ParseInt: an optional sign, digits, and no more than 64 bits. */
  function Atoi(s: string): Option<Int64> {
    if s == "" then None
    else
      var negative := s[0] == '-';
      match ReadDigits(if negative || s[0] == '+' then s[1..] else s)
      case None => None
      case Some(n) =>
        var v: int := if negative then 0 - n else n;
        if -0x8000_0000_0000_0000 <= v < 0x8000_0000_0000_0000 then Some(v) else None
  }

  lemma {:induction false} DigitsRoundTrip(n: nat)
    ensures ReadDigits(Digits(n)) == Some(n)
  {
    var s := Digits(n);
    if n >= 10 {
      DigitsRoundTrip(n / 10);
      assert s[..|s| - 1] == Digits(n / 10);
      assert s[|s| - 1] == Digit(n % 10);
    }
  }

  /** Every 64-bit integer survives printing and reading. */
  lemma AtoiRoundTrip(n: Int64)
    ensures Atoi(Itoa(n)) == Some(n)
  {
    if n < 0 {
      var m: nat := 0 - n;
      DigitsRoundTrip(m);
      assert Itoa(n)[1..] == Digits(m);
    } else {
      DigitsRoundTrip(n);
      assert Digits(n)[0] in Digits(n);
    }
  }

  /** Printed numbers contain digits and a sign, nothing else. */
  lemma ItoaPlain(n: int, c: char)
    requires c != '-' && !IsDigit(c)
    ensures c !in Itoa(n)
  {
  }

  lemma Samples()
    ensures Itoa(0) == "0" && Itoa(1065) == "1065" && Itoa(-30) == "-30" && Atoi("+7") == Some(7)
  {
    assert Digits(1065) == Digits(106) + "5" && Digits(106) == Digits(10) + "6" && Digits(10) == Digits(1) + "0";
    assert Digits(30) == Digits(3) + "0";
    assert "+7"[1..] == "7";
  }
}
