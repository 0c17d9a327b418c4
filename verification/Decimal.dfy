/** Decimal text of 64-bit signed integers, as written by FormatInt and read by ParseInt in base 10. */
module Decimal {
  import opened Bytes

  const PLUS: byte := 43
  const MINUS: byte := 45

  type int64 = n: int | -0x8000_0000_0000_0000 <= n < 0x8000_0000_0000_0000

  predicate IsDigit(c: byte) {
    48 <= c <= 57
  }

  predicate AllDigits(s: seq<byte>) {
    forall i :: 0 <= i < |s| ==> IsDigit(s[i])
  }

  function Digits(n: nat): (s: seq<byte>)
    ensures s != [] && forall c :: c in s ==> IsDigit(c)
  {
    if n < 10 then [n + 48] else Digits(n / 10) + [n % 10 + 48]
  }

  function Number(s: seq<byte>): (n: nat)
    requires AllDigits(s)
  {
    if s == [] then 0 else Number(s[..|s| - 1]) * 10 + (s[|s| - 1] as int - 48)
  }

  function Format(n: int64): seq<byte> {
    if n < 0 then [MINUS] + Digits(-(n as int)) else Digits(n)
  }

  /** An optional sign and at least one digit, in the range of 64 bits; anything else is an error. */
  function Parse(s: seq<byte>): Option<int64> {
    var negative := s != [] && s[0] == MINUS;
    var body := if s != [] && (s[0] == MINUS || s[0] == PLUS) then s[1..] else s;
    if body == [] || !AllDigits(body) then None
    else
      var n := Number(body);
      if negative then (if n > 0x8000_0000_0000_0000 then None else Some(-(n as int)))
      else if n >= 0x8000_0000_0000_0000 then None
      else Some(n)
  }

  lemma {:induction false} NumberOfDigits(n: nat)
    ensures Number(Digits(n)) == n
  {
    if n >= 10 {
      NumberOfDigits(n / 10);
      assert Digits(n)[..|Digits(n)| - 1] == Digits(n / 10);
    }
  }

  /** What is formatted parses to itself, and is made of digits and `-` only. */
  lemma RoundTrip(n: int64)
    ensures Parse(Format(n)) == Some(n)
    ensures forall c :: c in Format(n) ==> IsDigit(c) || c == MINUS
  {
    NumberOfDigits(if n < 0 then -(n as int) else n);
    if n < 0 {
      assert Format(n)[1..] == Digits(-(n as int));
    } else {
      assert IsDigit(Digits(n)[0]);
    }
  }

  /** Which text: the digits by place, without leading zeros, and the sign. */
  lemma FormatByPlaces(n: int64)
    ensures 0 <= n < 10 ==> Format(n) == ['0' as int + n]
    ensures n >= 10 ==> Format(n) == Format(n / 10) + ['0' as int + n % 10]
    ensures -0x8000_0000_0000_0000 < n < 0 ==> Format(n) == ['-' as int] + Format(-n)
    ensures n == -0x8000_0000_0000_0000 ==> Format(n) == Format(n / 10 + 1) + ['8' as int]
  {
    if n == -0x8000_0000_0000_0000 {
      assert Digits(0x8000_0000_0000_0000) == Digits(0xCCC_CCCC_CCCC_CCCC) + [8 + 48];
    }
  }

  lemma ParsesOnlyDigits(s: seq<byte>)
    requires Parse(s).Some?
    ensures forall i :: 0 <= i < |s| ==> IsDigit(s[i]) || s[i] == PLUS || s[i] == MINUS
  {
    if s[0] == MINUS || s[0] == PLUS {
      forall i | 0 < i < |s|
        ensures IsDigit(s[i])
      {
        assert IsDigit(s[1..][i - 1]);
      }
    }
  }
}
