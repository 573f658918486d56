/** Reading and writing numbers as text, as the Go library does it for base 10 and for 0x quantities. */
module Numerals {
  import opened Common

  /** The value of a digit or letter, 0 to 35; anything else is too large for any base used. */
  function DigitValue(c: char): nat {
    if '0' <= c <= '9' then (c - '0') as nat
    else if 'a' <= c <= 'z' then (c - 'a') as nat + 10
    else if 'A' <= c <= 'Z' then (c - 'A') as nat + 10
    else 63
  }

  predicate AllDigits(s: string, base: nat) {
    forall i | 0 <= i < |s| :: DigitValue(s[i]) < base
  }

  /** The number a string of digits stands for. */
  function ValueOf(s: string, base: nat): nat {
    if s == [] then 0 else ValueOf(s[..|s| - 1], base) * base + DigitValue(s[|s| - 1])
  }

  /** Unsigned parse in a fixed base: at least one digit, nothing but digits, and in range. */
  function ParseUint64(s: string, base: nat): Option<uint64> {
    if s == [] || !AllDigits(s, base) || ValueOf(s, base) >= TWO64 then None else Some(ValueOf(s, base))
  }

  function DigitChar(d: nat): char
    requires d < 16
  {
    if d < 10 then '0' + d as char else 'a' + (d - 10) as char
  }

  function Decimal(n: nat): string {
    if n < 10 then [DigitChar(n)] else Decimal(n / 10) + [DigitChar(n % 10)]
  }

  function Hex(n: nat): string {
    if n < 16 then [DigitChar(n)] else Hex(n / 16) + [DigitChar(n % 16)]
  }

  lemma {:induction false} DecimalRoundTrip(n: nat)
    ensures Decimal(n) != [] && AllDigits(Decimal(n), 10) && ValueOf(Decimal(n), 10) == n
    ensures n > 0 ==> Decimal(n)[0] != '0'
  {
    if n < 10 {
      assert ValueOf(Decimal(n), 10) == ValueOf([], 10) * 10 + n;
    } else {
      DecimalRoundTrip(n / 10);
      var s := Decimal(n);
      assert s[..|s| - 1] == Decimal(n / 10) && s[|s| - 1] == DigitChar(n % 10);
    }
  }

  lemma {:induction false} HexRoundTrip(n: nat)
    ensures Hex(n) != [] && AllDigits(Hex(n), 16) && ValueOf(Hex(n), 16) == n
    ensures Hex(n)[0] == '0' <==> n == 0
  {
    if n < 16 {
      assert ValueOf(Hex(n), 16) == ValueOf([], 16) * 16 + n;
    } else {
      HexRoundTrip(n / 16);
      var s := Hex(n);
      assert s[..|s| - 1] == Hex(n / 16) && s[|s| - 1] == DigitChar(n % 16);
    }
  }

  function LowerChar(c: char): char {
    if 'A' <= c <= 'Z' then 'a' + (c - 'A') else c
  }

  function Lower(s: string): (t: string)
    ensures |t| == |s| && forall i | 0 <= i < |s| :: t[i] == LowerChar(s[i])
  {
    seq(|s|, i requires 0 <= i < |s| => LowerChar(s[i]))
  }

  lemma HexDigit(c: char)
    requires DigitValue(c) < 16
    ensures LowerChar(c) == DigitChar(DigitValue(c))
  {
  }

  /** Digits without leading zeros are the number printed, but for the case of the letters. */
  lemma {:induction false} DigitsAreHex(s: string)
    requires AllDigits(s, 16) && s != [] && s[0] != '0'
    ensures ValueOf(s, 16) > 0 && Lower(s) == Hex(ValueOf(s, 16))
  {
    var front, last := s[..|s| - 1], s[|s| - 1];
    LowerAppend(s);
    HexDigit(last);
    if |s| > 1 {
      DigitsAreHex(front);
      HexAppend(ValueOf(front, 16), DigitValue(last));
    } else {
      assert ValueOf(s, 16) == DigitValue(last);
    }
  }

  lemma LowerAppend(s: string)
    requires s != []
    ensures Lower(s) == Lower(s[..|s| - 1]) + [LowerChar(s[|s| - 1])]
  {
  }

  lemma HexAppend(n: nat, d: nat)
    requires n > 0 && d < 16
    ensures Hex(n * 16 + d) == Hex(n) + [DigitChar(d)]
  {
  }

  predicate Has0xPrefix(s: string) {
    |s| >= 2 && s[0] == '0' && (s[1] == 'x' || s[1] == 'X')
  }

  /** A quantity: 0x, then hex digits without a leading zero unless it is the only digit. */
  function DecodeQuantity(s: string): Option<uint64> {
    if !Has0xPrefix(s) then None
    else
      var raw := s[2..];
      if |raw| == 0 || (|raw| > 1 && raw[0] == '0') then None else ParseUint64(raw, 16)
  }

  lemma QuantityIsHex(s: string)
    requires DecodeQuantity(s).Some?
    ensures Lower(s) == "0x" + Hex(DecodeQuantity(s).value)
  {
    LowerPrefix(s);
    if s[2] == '0' {
      ZeroIsHex(s[2..]);
    } else {
      DigitsAreHex(s[2..]);
    }
  }

  lemma LowerPrefix(s: string)
    requires Has0xPrefix(s)
    ensures Lower(s) == "0x" + Lower(s[2..])
  {
  }

  lemma ZeroIsHex(raw: string)
    requires |raw| == 1 && raw[0] == '0'
    ensures Lower(raw) == Hex(ValueOf(raw, 16))
  {
    assert ValueOf(raw, 16) == ValueOf(raw[..0], 16) * 16;
    assert Hex(0) == "0";
  }

  lemma {:induction false} LowerValue(s: string, base: nat)
    ensures ValueOf(Lower(s), base) == ValueOf(s, base)
  {
    if s != [] {
      LowerValue(s[..|s| - 1], base);
      assert Lower(s)[..|s| - 1] == Lower(s[..|s| - 1]);
    }
  }

  lemma LowerDigits(s: string, base: nat)
    requires AllDigits(Lower(s), base)
    ensures AllDigits(s, base)
  {
    assert forall i | 0 <= i < |s| :: DigitValue(Lower(s)[i]) == DigitValue(s[i]);
  }

  lemma HexIsQuantity(s: string, n: uint64)
    requires Lower(s) == "0x" + Hex(n)
    ensures DecodeQuantity(s) == Some(n)
  {
    HexRoundTrip(n);
    PrefixFromLower(s, Hex(n));
    var raw := s[2..];
    LowerValue(raw, 16);
    LowerDigits(raw, 16);
    assert Lower(raw)[0] == LowerChar(raw[0]);
  }

  lemma PrefixFromLower(s: string, digits: string)
    requires Lower(s) == "0x" + digits
    ensures Has0xPrefix(s) && Lower(s[2..]) == digits
  {
    assert Lower(s)[0] == '0' && Lower(s)[1] == 'x';
    assert Lower(s[2..]) == Lower(s)[2..];
  }

  /** The quantities below 2^64 are the numbers printed in base 16 after 0x, in letters of either case. */
  lemma QuantityIff(s: string, n: uint64)
    ensures DecodeQuantity(s) == Some(n) <==> Lower(s) == "0x" + Hex(n)
  {
    if DecodeQuantity(s) == Some(n) {
      QuantityIsHex(s);
    }
    if Lower(s) == "0x" + Hex(n) {
      HexIsQuantity(s, n);
    }
  }

  /** A quantity has no colon in it. */
  lemma QuantityHasNoColon(s: string)
    requires DecodeQuantity(s).Some?
    ensures ':' !in s
  {
    var raw := s[2..];
    assert DigitValue(':') == 63;
    forall i | 0 <= i < |s| ensures s[i] != ':' {
      if i >= 2 {
        assert DigitValue(raw[i - 2]) < 16;
      }
    }
  }
}
