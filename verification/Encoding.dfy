/** Text encodings used on the wire and in associated data: lower-case hex and
    decimal, with the facts that make them unambiguous. */
module Encoding {
  import opened Basics

  function HexDigit(n: int): char
    requires 0 <= n < 16
  {
    if n < 10 then ('0' as int + n) as char else ('a' as int + n - 10) as char
  }

  predicate IsHexDigit(c: char) { '0' <= c <= '9' || 'a' <= c <= 'f' }

  function HexValue(c: char): (n: int)
    requires IsHexDigit(c)
    ensures 0 <= n < 16
  {
    if c <= '9' then c as int - '0' as int else c as int - 'a' as int + 10
  }

  lemma HexDigitRoundTrip()
    ensures forall n :: 0 <= n < 16 ==> IsHexDigit(HexDigit(n)) && HexValue(HexDigit(n)) == n
    ensures forall c :: IsHexDigit(c) ==> HexDigit(HexValue(c)) == c
  {
  }

  /** `bytes.hex()`: two lower-case digits a byte. */
  function Hex(b: bytes): string {
    if b == [] then [] else [HexDigit(b[0] / 16), HexDigit(b[0] % 16)] + Hex(b[1..])
  }

  predicate IsHex(s: string) {
    |s| % 2 == 0 && forall i :: 0 <= i < |s| ==> IsHexDigit(s[i])
  }

  /** `bytes.fromhex` on lower-case digits. */
  function FromHex(s: string): bytes
    requires IsHex(s)
  {
    if s == [] then [] else [HexValue(s[0]) * 16 + HexValue(s[1])] + FromHex(s[2..])
  }

  /** Unpacking a packed file id, or parsing a digest, gives it back. */
  lemma {:induction false} HexThenFromHex(b: bytes)
    ensures |Hex(b)| == 2 * |b| && IsHex(Hex(b)) && FromHex(Hex(b)) == b
  {
    HexDigitRoundTrip();
    if b != [] {
      HexThenFromHex(b[1..]);
      var h := Hex(b);
      assert h[2..] == Hex(b[1..]);
      forall i | 0 <= i < |h|
        ensures IsHexDigit(h[i])
      {
        if i >= 2 { assert h[i] == h[2..][i - 2]; }
      }
    }
  }

  lemma {:induction false} FromHexThenHex(s: string)
    requires IsHex(s)
    ensures 2 * |FromHex(s)| == |s| && Hex(FromHex(s)) == s
  {
    if s != [] {
      FromHexThenHex(s[2..]);
      var c, d, rest := s[0], s[1], s[2..];
      HexPair(c, d);
      HexCons(HexValue(c) * 16 + HexValue(d), FromHex(rest));
      assert s == [c, d] + rest;
    }
  }

  lemma HexCons(first: byte, rest: bytes)
    ensures Hex([first] + rest) == [HexDigit(first / 16), HexDigit(first % 16)] + Hex(rest)
  {
    assert ([first] + rest)[1..] == rest;
  }

  lemma HexPair(c: char, d: char)
    requires IsHexDigit(c) && IsHexDigit(d)
    ensures 0 <= HexValue(c) * 16 + HexValue(d) < 256
    ensures HexDigit((HexValue(c) * 16 + HexValue(d)) / 16) == c && HexDigit((HexValue(c) * 16 + HexValue(d)) % 16) == d
  {
    HexDigitRoundTrip();
  }

  const DIGITS: string := "0123456789abcdef"

  /** The digits of byte i stand at places 2i and 2i + 1, the high one first. */
  lemma {:induction false} HexPlaces(b: bytes, i: nat)
    requires i < |b|
    ensures |Hex(b)| == 2 * |b|
    ensures Hex(b)[2 * i] == DIGITS[b[i] / 16] && Hex(b)[2 * i + 1] == DIGITS[b[i] % 16]
  {
    HexThenFromHex(b);
    DigitTable(b[i] / 16);
    DigitTable(b[i] % 16);
    if i > 0 {
      HexPlaces(b[1..], i - 1);
      assert Hex(b)[2 * i] == Hex(b[1..])[2 * (i - 1)] && Hex(b)[2 * i + 1] == Hex(b[1..])[2 * (i - 1) + 1];
    }
  }

  lemma DigitTable(n: int)
    requires 0 <= n < 16
    ensures HexDigit(n) == DIGITS[n]
  {
  }

  lemma HexIsInjective(a: bytes, b: bytes)
    ensures Hex(a) == Hex(b) <==> a == b
  {
    HexThenFromHex(a);
    HexThenFromHex(b);
  }

  predicate IsDecimal(s: string) { |s| > 0 && forall i :: 0 <= i < |s| ==> '0' <= s[i] <= '9' }

  /** Decimal printing of a natural number, as in an f-string. */
  function Decimal(n: nat): (s: string)
    ensures IsDecimal(s)
  {
    if n < 10 then [HexDigit(n)] else Decimal(n / 10) + [HexDigit(n % 10)]
  }

  /** The number a row of decimal digits stands for, the last digit being units. */
  function FromDecimal(s: string): nat
    requires IsDecimal(s)
  {
    (if |s| == 1 then 0 else FromDecimal(s[..|s| - 1]) * 10) + (s[|s| - 1] as int - '0' as int)
  }

  /** Decimal text stands for the number it was printed from, and has no
      leading zero unless the number is 0. */
  lemma {:induction false} DecimalReadsBack(n: nat)
    ensures FromDecimal(Decimal(n)) == n
    ensures Decimal(n)[0] == '0' ==> n == 0 && |Decimal(n)| == 1
  {
    var s := Decimal(n);
    if n < 10 {
      assert s[..0] == [];
    } else {
      DecimalReadsBack(n / 10);
      assert s[..|s| - 1] == Decimal(n / 10);
    }
  }

  lemma DecimalIsInjective(m: nat, n: nat)
    ensures Decimal(m) == Decimal(n) <==> m == n
  {
    DecimalReadsBack(m);
    DecimalReadsBack(n);
  }

  /** Text up to a separator that does not occur in it can be read back. */
  lemma SplitAtSeparator(a: string, b: string, a': string, b': string, sep: char)
    requires sep !in a && sep !in a' && a + [sep] + b == a' + [sep] + b'
    ensures a == a' && b == b'
  {
    var s := a + [sep] + b;
    assert s[|a|] == sep && s[|a'|] == sep;
    assert forall i :: 0 <= i < |a| ==> s[i] == a[i];
    assert forall i :: 0 <= i < |a'| ==> s[i] == a'[i];
    assert a == s[..|a|] && a' == s[..|a'|];
    assert b == s[|a| + 1..] && b' == s[|a'| + 1..];
  }
}
