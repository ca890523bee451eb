/**
 * The hexadecimal printer and reader of core/Dechex.cpp, over 32-bit unsigned integers.
 */
module Dechex {
  import opened Basics
  import opened HttpChars
  import HttpNumbers

  const HEX_CHARS: string := "0123456789abcdef"

  function HexChar(d: nat): (c: char)
    requires d < 16
    ensures IsHex(c) && Unhex(c) == d && !('A' <= c <= 'F')
  {
    if d < 10 then ('0' as int + d) as char else ('a' as int + d - 10) as char
  }

  lemma HexCharTable(d: nat)
    requires d < 16
    ensures HEX_CHARS[d] == HexChar(d)
  {
  }

  /** The hexadecimal digits of num, most significant first and without leading zeros; no digit for zero. */
  function HexOf(num: nat): (s: string)
    ensures num > 0 ==> s != []
    ensures forall i :: 0 <= i < |s| ==> IsHex(s[i])
  {
    if num == 0 then [] else HexOf(num / 16) + [HexChar(num % 16)]
  }

  lemma {:induction false} HexOfValue(num: nat)
    ensures HttpNumbers.Hexadecimal(0, HexOf(num)) == num
  {
    if num != 0 {
      HexOfValue(num / 16);
      var s := HexOf(num);
      assert s[..|s| - 1] == HexOf(num / 16);
    }
  }

  lemma {:induction false} HexOfLength(num: nat, digits: nat, bound: nat)
    requires bound == Pow16(digits) && num < bound
    ensures |HexOf(num)| <= digits
    decreases digits
  {
    if num != 0 {
      HexOfLength(num / 16, digits - 1, Pow16(digits - 1));
    }
  }

  function Pow16(n: nat): (p: nat)
    ensures p >= 1
  {
    if n == 0 then 1 else 16 * Pow16(n - 1)
  }

  /** REVERSE_STRING: reverses the first len characters in place. */
  method ReverseString(buf: array<char>, len: nat)
    requires len <= buf.Length
    modifies buf
    ensures buf[..len] == Reversed(old(buf[..len]))
    ensures buf[len..] == old(buf[len..])
  {
    ghost var was := buf[..len];
    var beg, end := 0, len - 1;
    while beg < end
      invariant 0 <= beg <= len && end == len - 1 - beg && beg <= end + 1
      invariant forall k :: 0 <= k < beg || end < k < len ==> buf[k] == was[len - 1 - k]
      invariant forall k :: beg <= k <= end ==> buf[k] == was[k]
      invariant buf[len..] == old(buf[len..])
      decreases end - beg
    {
      var tmp := buf[beg];
      buf[beg] := buf[end];
      buf[end] := tmp;
      beg := beg + 1;
      end := end - 1;
    }
    assert buf[..len] == Reversed(was);
  }

  function Reversed(s: seq<char>): (r: seq<char>)
    ensures |r| == |s|
    ensures forall k :: 0 <= k < |s| ==> r[k] == s[|s| - 1 - k]
  {
    seq(|s|, k requires 0 <= k < |s| => s[|s| - 1 - k])
  }

  /** dec2hex: pushes the digits into the nine-byte buffer, least significant first, and reverses them. */
  method Dec2Hex(num: nat) returns (s: string)
    requires num < TWO_TO_32
    ensures s == HexOf(num) && |s| <= 8
  {
    var buf := new char[9](_ => NUL);
    var dec: nat, len: nat := num, 0;
    HexOfLength(num, 8, Pow16(8));
    while dec != 0
      invariant dec <= num && len + |HexOf(dec)| == |HexOf(num)| <= 8
      invariant HexOf(num) == HexOf(dec) + Reversed(buf[..len])
      decreases dec
    {
      assert HexOf(dec) == HexOf(dec / 16) + [HexChar(dec % 16)];
      HexCharTable(dec % 16);
      ghost var pushed := buf[..len];
      buf[len] := HEX_CHARS[dec % 16];
      assert buf[..len + 1] == pushed + [HexChar(dec % 16)];
      assert Reversed(buf[..len + 1]) == [HexChar(dec % 16)] + Reversed(pushed);
      dec, len := dec / 16, len + 1;
    }
    ReverseString(buf, len);
    s := buf[..len];
  }

  /** HEXCHAR2DEC, which knows lower-case digits only. */
  function DigitOf(c: char): int {
    if c > '9' then c as int - 'a' as int + 10 else c as int - '0' as int
  }

  predicate IsLowerHex(s: string) {
    forall i :: 0 <= i < |s| ==> IsHex(s[i]) && !('A' <= s[i] <= 'F')
  }

  /** The last i digits of hex have the value dec. */
  ghost predicate ReadSoFar(hex: string, i: nat, dec: nat)
    requires i <= |hex| && IsLowerHex(hex)
  {
    dec < Pow16(i) &&
    HttpNumbers.Hexadecimal(0, hex) == HttpNumbers.Hexadecimal(0, hex[..|hex| - i]) * Pow16(i) + dec
  }

  lemma ReadStep(hex: string, i: nat, dec: nat)
    requires i < |hex| <= 8 && IsLowerHex(hex) && ReadSoFar(hex, i, dec)
    ensures var digit := DigitOf(hex[|hex| - 1 - i]);
            0 <= digit && dec + ShiftLeft(digit, i) < TWO_TO_32 && ReadSoFar(hex, i + 1, dec + ShiftLeft(digit, i))
  {
    TakeDigit(hex, i, Pow16(i), dec);
  }

  lemma ReadEnds(hex: string, dec: nat)
    requires IsLowerHex(hex)
    ensures ReadSoFar(hex, 0, 0)
    ensures ReadSoFar(hex, |hex|, dec) ==> dec == HttpNumbers.Hexadecimal(0, hex)
  {
    assert hex[..|hex|] == hex;
    assert hex[..0] == [];
  }

  /** hex2dec: from the last digit to the first, in 32-bit arithmetic. */
  method Hex2Dec(hex: string) returns (dec: nat)
    requires hex != [] && |hex| <= 8
    requires IsLowerHex(hex)
    ensures dec == HttpNumbers.Hexadecimal(0, hex) < TWO_TO_32
  {
    hide ReadSoFar, ShiftLeft;
    dec := 0;
    var i := 0;
    ReadEnds(hex, 0);
    while i < |hex|
      invariant 0 <= i <= |hex| && dec < TWO_TO_32 && ReadSoFar(hex, i, dec)
      decreases |hex| - i
    {
      ReadStep(hex, i, dec);
      dec := (dec + ShiftLeft(DigitOf(hex[|hex| - 1 - i]), i)) % TWO_TO_32;
      i := i + 1;
    }
    ReadEnds(hex, dec);
  }

  /** digit << (4 * i). */
  function ShiftLeft(digit: nat, i: nat): nat {
    digit * Pow16(i)
  }

  lemma DigitWeight(high: nat, digit: nat, weight: nat, dec: nat)
    requires digit < 16 && dec < weight
    ensures (high * 16 + digit) * weight + dec == high * (16 * weight) + (dec + digit * weight)
    ensures dec + digit * weight < 16 * weight
  {
    assert digit * weight <= 15 * weight;
  }

  lemma HexadecimalNext(hex: string, k: nat)
    requires k < |hex| && IsLowerHex(hex)
    ensures HttpNumbers.Hexadecimal(0, hex[..k + 1]) == HttpNumbers.Hexadecimal(0, hex[..k]) * 16 + Unhex(hex[k])
  {
    assert hex[..k + 1][..k] == hex[..k];
  }

  /** The digit with i digits to its right joins the number read from those. */
  lemma TakeDigit(hex: string, i: nat, weight: nat, dec: nat)
    requires i < |hex| <= 8 && IsLowerHex(hex) && weight == Pow16(i) && dec < weight
    ensures var k := |hex| - 1 - i; var digit := DigitOf(hex[k]);
            && 0 <= digit < 16
            && HttpNumbers.Hexadecimal(0, hex[..k + 1]) * weight + dec ==
               HttpNumbers.Hexadecimal(0, hex[..k]) * (16 * weight) + (dec + digit * weight)
            && dec + digit * weight < 16 * weight <= TWO_TO_32
  {
    var k := |hex| - 1 - i;
    assert DigitOf(hex[k]) == Unhex(hex[k]);
    HexadecimalNext(hex, k);
    hide HttpNumbers.Hexadecimal;
    assert Pow16(i + 1) == 16 * weight;
    Pow16Monotone(i + 1, 8);
    DigitWeight(HttpNumbers.Hexadecimal(0, hex[..k]), DigitOf(hex[k]), weight, dec);
  }

  lemma {:induction false} Pow16Monotone(m: nat, n: nat)
    requires m <= n
    ensures Pow16(m) <= Pow16(n) && Pow16(8) == TWO_TO_32
    decreases n - m
  {
    assert Pow16(8) == 16 * 16 * 16 * 16 * Pow16(4);
    if m < n {
      Pow16Monotone(m + 1, n);
    }
  }

  /** Reading back what was printed. */
  method RoundTrip(num: nat) returns (dec: nat)
    requires 0 < num < TWO_TO_32
    ensures dec == num
  {
    var s := Dec2Hex(num);
    HexOfValue(num);
    HexOfIsLower(num);
    dec := Hex2Dec(s);
  }

  lemma {:induction false} HexOfIsLower(num: nat)
    ensures IsLowerHex(HexOf(num))
  {
    if num != 0 {
      HexOfIsLower(num / 16);
    }
  }
}
