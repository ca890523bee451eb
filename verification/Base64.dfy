/**
 * The Base64 coder of http/lib/base64.c, which implements section 4 of RFC 4648, over its output buffers.
 */
module Base64 {
  import opened Basics

  /** Six bits. */
  type Sextet = d: int | 0 <= d < 64

  /** Table 1 of RFC 4648. */
  const ALPHABET: string := "ABCDEFGHIJKLMNOPQRSTUVWXYZ" + "abcdefghijklmnopqrstuvwxyz" + "0123456789" + "+/"

  /** The character that the standard has for six bits. */
  function Letter(d: Sextet): char {
    ALPHABET[d]
  }

  /** The table basis_64: A to Z, a to z, 0 to 9, + and /. */
  function Basis(d: int): (c: char)
    requires 0 <= d < 64
    ensures Pr2Six(c) == d
  {
    if d < 26 then ('A' as int + d) as char
    else if d < 52 then ('a' as int + d - 26) as char
    else if d < 62 then ('0' as int + d - 52) as char
    else if d == 62 then '+'
    else '/'
  }

  /** The table pr2six: the value of a digit, 64 for any other byte. */
  function Pr2Six(c: char): (d: nat)
    ensures d <= 64
  {
    if 'A' <= c <= 'Z' then c as int - 'A' as int
    else if 'a' <= c <= 'z' then c as int - 'a' as int + 26
    else if '0' <= c <= '9' then c as int - '0' as int + 52
    else if c == '+' then 62
    else if c == '/' then 63
    else 64
  }

  lemma UpperDigits(d: Sextet)
    requires d < 26
    ensures Basis(d) == Letter(d)
  {
  }

  lemma LowerDigits(d: Sextet)
    requires 26 <= d < 52
    ensures Basis(d) == Letter(d)
  {
  }

  lemma OtherDigits(d: Sextet)
    requires 52 <= d
    ensures Basis(d) == Letter(d)
  {
  }

  /** The tables are those of the standard. */
  lemma StandardTables(d: Sextet, c: char)
    ensures Basis(d) == Letter(d)
    ensures Pr2Six(c) == d <==> c == Letter(d)
  {
    hide Letter;
    if d < 26 {
      UpperDigits(d);
    } else if d < 52 {
      LowerDigits(d);
    } else {
      OtherDigits(d);
    }
  }

  // ---------------------------------------------------------------- the coding

  /** The six-bit digits of x, three bytes to four digits, the last group filled up with zero bits. */
  function Digits(x: seq<Byte>): (ds: seq<Sextet>) {
    if |x| == 0 then []
    else if |x| == 1 then Group(x[0], 0, 0)[..2]
    else if |x| == 2 then Group(x[0], x[1], 0)[..3]
    else Group(x[0], x[1], x[2]) + Digits(x[3..])
  }

  function Group(a: int, b: int, c: int): (ds: seq<Sextet>)
    requires 0 <= a < 256 && 0 <= b < 256 && 0 <= c < 256
    ensures |ds| == 4
  {
    [a / 4, a % 4 * 16 + b / 16, b % 16 * 4 + c / 64, c % 64]
  }

  /** The bytes of digits; a single digit left over gives none. */
  function Bytes(ds: seq<Sextet>): (x: seq<Byte>) {
    if |ds| <= 1 then []
    else if |ds| == 2 then Ungroup(ds[0], ds[1], 0, 0)[..1]
    else if |ds| == 3 then Ungroup(ds[0], ds[1], ds[2], 0)[..2]
    else Ungroup(ds[0], ds[1], ds[2], ds[3]) + Bytes(ds[4..])
  }

  function Ungroup(a: int, b: int, c: int, d: int): (x: seq<Byte>)
    requires 0 <= a < 64 && 0 <= b < 64 && 0 <= c < 64 && 0 <= d < 64
    ensures |x| == 3
  {
    [(a * 4 + b / 16) % 256, (b * 16 + c / 4) % 256, (c * 64 + d) % 256]
  }

  /** The value of four digits as one number of 24 bits. */
  function Value24(p: int, q: int, r: int, t: int): int {
    p * 262144 + q * 4096 + r * 64 + t
  }

  lemma ModOf(k: int, b: int)
    requires 0 <= b < 256
    ensures (k * 256 + b) % 256 == b
  {
  }

  lemma SplitBits(a: int, b: int, c: int)
    requires 0 <= a < 256 && 0 <= b < 256 && 0 <= c < 256
    ensures var p, q, r, t := a / 4, a % 4 * 16 + b / 16, b % 16 * 4 + c / 64, c % 64;
            (p * 4 + q / 16) % 256 == a && (q * 16 + r / 4) % 256 == b && (r * 64 + t) % 256 == c
  {
    assert (a % 4 * 16 + b / 16) / 16 == a % 4;
    assert (b % 16 * 4 + c / 64) / 4 == b % 16;
    ModOf(a % 4, b);
    ModOf(b % 16, c);
  }

  lemma GroupValue(a: int, b: int, c: int)
    requires 0 <= a < 256 && 0 <= b < 256 && 0 <= c < 256
    ensures var g := Group(a, b, c); Value24(g[0], g[1], g[2], g[3]) == a * 65536 + b * 256 + c
  {
    assert b == b / 16 * 16 + b % 16 && c == c / 64 * 64 + c % 64;
  }

  lemma GroupInverse(a: int, b: int, c: int)
    requires 0 <= a < 256 && 0 <= b < 256 && 0 <= c < 256
    ensures var g := Group(a, b, c); Ungroup(g[0], g[1], g[2], g[3]) == [a, b, c]
  {
    SplitBits(a, b, c);
  }

  lemma GroupEnds(a: int, b: int)
    requires 0 <= a < 256 && 0 <= b < 256
    ensures var g := Group(a, 0, 0); Ungroup(g[0], g[1], 0, 0)[0] == a && g[2] == g[3] == 0
    ensures var g := Group(a, b, 0); Ungroup(g[0], g[1], g[2], 0)[..2] == [a, b] && g[3] == 0
  {
    GroupInverse(a, 0, 0);
    GroupInverse(a, b, 0);
  }

  /** Decoding the digits gives back the bytes. */
  lemma {:induction false} BytesOfDigits(x: seq<Byte>)
    ensures Bytes(Digits(x)) == x
  {
    hide Group, Ungroup;
    if |x| == 1 {
      GroupEnds(x[0], 0);
    } else if |x| == 2 {
      GroupEnds(x[0], x[1]);
      assert [x[0], x[1]] == x;
    } else if |x| >= 3 {
      BytesOfDigits(x[3..]);
      GroupInverse(x[0], x[1], x[2]);
      assert Digits(x)[4..] == Digits(x[3..]);
      assert x == [x[0], x[1], x[2]] + x[3..];
    }
  }

  lemma {:induction false} DigitsCount(x: seq<Byte>)
    ensures |Digits(x)| == |x| / 3 * 4 + (if |x| % 3 == 0 then 0 else |x| % 3 + 1)
  {
    if |x| >= 3 {
      DigitsCount(x[3..]);
    }
  }

  lemma {:induction false} BytesCount(ds: seq<Sextet>)
    ensures |Bytes(ds)| == |ds| / 4 * 3 + (if |ds| % 4 == 0 then 0 else |ds| % 4 - 1)
  {
    if |ds| >= 4 {
      BytesCount(ds[4..]);
    }
  }

  /** Digits that some byte string is coded as: no single one left over, and zero bits behind the last byte. */
  predicate Canonical(ds: seq<Sextet>) {
    && |ds| % 4 != 1
    && (|ds| % 4 == 2 ==> ds[|ds| - 1] as int % 16 == 0)
    && (|ds| % 4 == 3 ==> ds[|ds| - 1] as int % 4 == 0)
  }

  lemma FirstByte(a: int, b: int)
    requires 0 <= a < 64 && 0 <= b < 64
    ensures var p := (a * 4 + b / 16) % 256; p / 4 == a && p % 4 == b / 16
  {
    assert a * 4 + b / 16 < 256;
  }

  lemma SecondByte(b: int, c: int)
    requires 0 <= b < 64 && 0 <= c < 64
    ensures var q := (b * 16 + c / 4) % 256; q / 16 == b % 16 && q % 16 == c / 4
  {
    assert b * 16 + c / 4 == b / 16 * 256 + (b % 16 * 16 + c / 4);
    ModOf(b / 16, b % 16 * 16 + c / 4);
  }

  lemma ThirdByte(c: int, d: int)
    requires 0 <= c < 64 && 0 <= d < 64
    ensures var r := (c * 64 + d) % 256; r / 64 == c % 4 && r % 64 == d
  {
    assert c * 64 + d == c / 4 * 256 + (c % 4 * 64 + d);
    ModOf(c / 4, c % 4 * 64 + d);
  }

  lemma UngroupInverse(a: int, b: int, c: int, d: int)
    requires 0 <= a < 64 && 0 <= b < 64 && 0 <= c < 64 && 0 <= d < 64
    ensures var x := Ungroup(a, b, c, d); Group(x[0], x[1], x[2]) == [a, b, c, d]
  {
    FirstByte(a, b);
    SecondByte(b, c);
    ThirdByte(c, d);
  }

  lemma CanonicalStep(ds: seq<Sextet>)
    requires |ds| >= 4
    ensures Canonical(ds) <==> Canonical(ds[4..])
  {
  }

  lemma DigitsStep(x: seq<Byte>)
    requires |x| >= 3
    ensures Digits(x) == Group(x[0], x[1], x[2]) + Digits(x[3..])
  {
  }

  lemma DigitsJoin(x: seq<Byte>, rest: seq<Byte>)
    requires |x| == 3
    ensures Digits(x + rest) == Group(x[0], x[1], x[2]) + Digits(rest)
  {
    hide Group, Digits;
    var y := x + rest;
    assert y[0] == x[0] && y[1] == x[1] && y[2] == x[2] && y[3..] == rest;
    DigitsStep(y);
  }

  lemma BytesUnfold(ds: seq<Sextet>)
    requires |ds| >= 4
    ensures Bytes(ds) == Ungroup(ds[0], ds[1], ds[2], ds[3]) + Bytes(ds[4..])
  {
  }

  lemma DigitsOfGroup(a: Sextet, b: Sextet, c: Sextet, d: Sextet, rest: seq<Byte>)
    ensures Digits(Ungroup(a, b, c, d) + rest) == [a, b, c, d] + Digits(rest)
  {
    hide Group, Ungroup, Digits;
    UngroupInverse(a, b, c, d);
    DigitsJoin(Ungroup(a, b, c, d), rest);
  }

  lemma BytesStep(ds: seq<Sextet>)
    requires |ds| >= 4
    ensures Digits(Bytes(ds)) == [ds[0], ds[1], ds[2], ds[3]] + Digits(Bytes(ds[4..]))
  {
    hide Group, Ungroup, Digits, Bytes;
    BytesUnfold(ds);
    DigitsOfGroup(ds[0], ds[1], ds[2], ds[3], Bytes(ds[4..]));
  }

  lemma DigitsOfTwo(ds: seq<Sextet>)
    requires |ds| == 2
    ensures Digits(Bytes(ds)) == ds <==> ds[1] as int % 16 == 0
  {
    hide Group, Ungroup;
    UngroupTwo(ds[0], ds[1]);
    assert Digits(Bytes(ds)) == [ds[0], ds[1] as int / 16 * 16];
    assert ds == [ds[0], ds[1]];
  }

  lemma DigitsOfThree(ds: seq<Sextet>)
    requires |ds| == 3
    ensures Digits(Bytes(ds)) == ds <==> ds[2] as int % 4 == 0
  {
    hide Group, Ungroup;
    UngroupThree(ds[0], ds[1], ds[2]);
    assert Digits(Bytes(ds)) == [ds[0], ds[1], ds[2] as int / 4 * 4];
    assert ds == [ds[0], ds[1], ds[2]];
  }

  lemma DigitsOfOne(ds: seq<Sextet>)
    requires |ds| <= 1
    ensures Digits(Bytes(ds)) == ds <==> |ds| == 0
  {
  }

  lemma DigitsOfFew(ds: seq<Sextet>)
    requires |ds| < 4
    ensures Digits(Bytes(ds)) == ds <==> Canonical(ds)
  {
    hide Digits, Bytes;
    if |ds| <= 1 {
      DigitsOfOne(ds);
    } else if |ds| == 2 {
      DigitsOfTwo(ds);
    } else {
      DigitsOfThree(ds);
    }
  }

  /** Coding what digits were decoded to gives them back exactly when they are canonical. */
  lemma {:induction false} DigitsOfBytes(ds: seq<Sextet>)
    ensures Digits(Bytes(ds)) == ds <==> Canonical(ds)
  {
    hide Digits, Bytes, Canonical;
    if |ds| >= 4 {
      DigitsOfBytes(ds[4..]);
      CanonicalStep(ds);
      BytesStep(ds);
      assert ds == [ds[0], ds[1], ds[2], ds[3]] + ds[4..];
      assert Digits(Bytes(ds))[4..] == Digits(Bytes(ds[4..]));
    } else {
      DigitsOfFew(ds);
    }
  }

  lemma UngroupTwo(a: int, b: int)
    requires 0 <= a < 64 && 0 <= b < 64
    ensures Group(Ungroup(a, b, 0, 0)[0], 0, 0)[..2] == [a, b / 16 * 16]
  {
  }

  lemma UngroupThree(a: int, b: int, c: int)
    requires 0 <= a < 64 && 0 <= b < 64 && 0 <= c < 64
    ensures var x := Ungroup(a, b, c, 0); Group(x[0], x[1], 0)[..3] == [a, b, c / 4 * 4]
  {
    FirstByte(a, b);
    SecondByte(b, c);
  }

  /** The number that digits of a base spell, after the number n. */
  function Number(n: nat, base: nat, ds: seq<int>): nat
    requires forall i :: 0 <= i < |ds| ==> 0 <= ds[i] < base
    decreases |ds|
  {
    if ds == [] then n else Number(n * base + ds[0], base, ds[1..])
  }

  lemma NumberStep(n: nat, base: nat, x: seq<int>)
    requires x != [] && forall i :: 0 <= i < |x| ==> 0 <= x[i] < base
    ensures Number(n, base, x) == Number(n * base + x[0], base, x[1..])
  {
  }

  /** The first three digits, or four, of a number. */
  lemma Number3(n: nat, x: seq<Sextet>)
    requires |x| >= 3
    ensures Number(n, 64, x) == Number(n * 262144 + x[0] as int * 4096 + x[1] as int * 64 + x[2], 64, x[3..])
  {
    hide Number;
    assert x[1..][1..] == x[2..] && x[2..][1..] == x[3..];
    NumberStep(n, 64, x);
    NumberStep(n * 64 + x[0], 64, x[1..]);
    NumberStep(n * 4096 + x[0] as int * 64 + x[1], 64, x[2..]);
  }

  lemma Number4(n: nat, x: seq<Sextet>)
    requires |x| >= 4
    ensures Number(n, 64, x) == Number(n * 16777216 + Value24(x[0], x[1], x[2], x[3]), 64, x[4..])
  {
    hide Number;
    assert x[3..][1..] == x[4..];
    Number3(n, x);
    NumberStep(n * 262144 + x[0] as int * 4096 + x[1] as int * 64 + x[2], 64, x[3..]);
  }

  lemma NumberBytes(n: nat, x: seq<Byte>)
    requires |x| >= 3
    ensures Number(n, 256, x) == Number(n * 16777216 + x[0] as int * 65536 + x[1] as int * 256 + x[2], 256, x[3..])
  {
    hide Number;
    assert x[1..][1..] == x[2..] && x[2..][1..] == x[3..];
    NumberStep(n, 256, x);
    NumberStep(n * 256 + x[0], 256, x[1..]);
    NumberStep(n * 65536 + x[0] as int * 256 + x[1], 256, x[2..]);
  }

  /**
   * What the coding means: the digits spell, in base 64, the number that the bytes spell in base 256, followed by the
   * zero bits that fill up the last digit.
   */
  lemma {:induction false} DigitsSpell(n: nat, x: seq<Byte>)
    ensures Number(n, 64, Digits(x)) ==
            Number(n, 256, x) * (if |x| % 3 == 0 then 1 else if |x| % 3 == 1 then 16 else 4)
    decreases |x|
  {
    hide Number, Group, Value24;
    if |x| >= 3 {
      var g := Group(x[0], x[1], x[2]);
      assert Digits(x)[4..] == Digits(x[3..]) && forall i :: 0 <= i < 4 ==> Digits(x)[i] == g[i];
      Number4(n, Digits(x));
      NumberBytes(n, x);
      GroupValue(x[0], x[1], x[2]);
      DigitsSpell(n * 16777216 + x[0] as int * 65536 + x[1] as int * 256 + x[2], x[3..]);
    } else {
      EndSpells(n, x);
    }
  }

  lemma OneSpells(n: nat, x: seq<Byte>)
    requires |x| == 1
    ensures Number(n, 64, Digits(x)) == Number(n, 256, x) * 16
  {
    hide Number;
    var ds := Digits(x);
    assert ds[1..][1..] == [] && x[1..] == [];
    NumberStep(n, 256, x);
    NumberStep(n, 64, ds);
    NumberStep(n * 64 + ds[0], 64, ds[1..]);
    NumberEnd(n * 256 + x[0], 256);
    NumberEnd((n * 64 + ds[0]) * 64 + ds[1], 64);
  }

  lemma TwoSpell(n: nat, x: seq<Byte>)
    requires |x| == 2
    ensures Number(n, 64, Digits(x)) == Number(n, 256, x) * 4
  {
    hide Number, Group;
    var ds := Digits(x);
    assert ds[3..] == [] && x[1..][1..] == [];
    NumberStep(n, 256, x);
    NumberStep(n * 256 + x[0], 256, x[1..]);
    Number3(n, ds);
    GroupValue(x[0], x[1], 0);
    GroupEnds(x[0], x[1]);
    NumberEnd((n * 256 + x[0]) * 256 + x[1], 256);
    NumberEnd(n * 262144 + ds[0] as int * 4096 + ds[1] as int * 64 + ds[2], 64);
  }

  lemma NumberEnd(n: nat, base: nat)
    ensures Number(n, base, []) == n
  {
  }

  lemma EndSpells(n: nat, x: seq<Byte>)
    requires |x| < 3
    ensures Number(n, 64, Digits(x)) == Number(n, 256, x) * (if |x| == 0 then 1 else if |x| == 1 then 16 else 4)
  {
    if |x| == 1 {
      OneSpells(n, x);
    } else if |x| == 2 {
      TwoSpell(n, x);
    }
  }

  /** Digits as characters. */
  function Chars(ds: seq<Sextet>): (s: seq<char>)
    ensures |s| == |ds| && forall i :: 0 <= i < |s| ==> s[i] == Letter(ds[i])
  {
    seq(|ds|, i requires 0 <= i < |ds| => Letter(ds[i]))
  }

  function Padding(n: nat): seq<char> {
    if n % 3 == 0 then "" else if n % 3 == 1 then "==" else "="
  }

  /** The encoding of x. */
  function Encoded(x: seq<Byte>): seq<char> {
    Chars(Digits(x)) + Padding(|x|)
  }

  /** Some of the test vectors of section 10 of RFC 4648. */
  lemma TestVectors()
    ensures Encoded([]) == ""
    ensures Encoded([102]) == "Zg=="
    ensures Encoded([102, 111]) == "Zm8="
    ensures Encoded([102, 111, 111]) == "Zm9v"
  {
    hide Letter;
    VectorLetters();
    VectorDigits();
    assert Chars([]) == "" && Chars([25, 32]) == "Zg";
    assert Chars([25, 38, 60]) == "Zm8" && Chars([25, 38, 61, 47]) == "Zm9v";
  }

  lemma VectorLetters()
    ensures Letter(25) == 'Z' && Letter(32) == 'g' && Letter(38) == 'm' && Letter(60) == '8'
    ensures Letter(61) == '9' && Letter(47) == 'v'
  {
  }

  lemma VectorDigits()
    ensures Digits([]) == [] && Digits([102]) == [25, 32] && Digits([102, 111]) == [25, 38, 60]
    ensures Digits([102, 111, 111]) == [25, 38, 61, 47]
  {
    VectorGroups();
    hide Group;
    var two: seq<Byte>, three: seq<Byte> := [102, 111], [102, 111, 111];
    assert Digits(two) == Group(two[0], two[1], 0)[..3];
    assert three[3..] == [] && Digits(three) == Group(three[0], three[1], three[2]) + Digits([]);
  }

  lemma VectorGroups()
    ensures Group(102, 0, 0) == [25, 32, 0, 0] && Group(102, 111, 0) == [25, 38, 60, 0]
    ensures Group(102, 111, 111) == [25, 38, 61, 47]
  {
    hide Group;
    GroupIs(102, 0, 0, [25, 32, 0, 0]);
    GroupIs(102, 111, 0, [25, 38, 60, 0]);
    GroupIs(102, 111, 111, [25, 38, 61, 47]);
  }

  lemma GroupIs(a: int, b: int, c: int, g: seq<Sextet>)
    requires 0 <= a < 256 && 0 <= b < 256 && 0 <= c < 256 && |g| == 4
    requires g[0] == a / 4 && g[1] == a % 4 * 16 + b / 16 && g[2] == b % 16 * 4 + c / 64 && g[3] == c % 64
    ensures Group(a, b, c) == g
  {
  }

  predicate IsDigit(c: char) {
    Pr2Six(c) <= 63
  }

  /** The number of digits s starts with. */
  function Run(s: seq<char>): (n: nat)
    ensures n <= |s| && (forall i :: 0 <= i < n ==> IsDigit(s[i])) && (n < |s| ==> !IsDigit(s[n]))
  {
    if s == [] || !IsDigit(s[0]) then 0 else 1 + Run(s[1..])
  }

  /** What the digits at the start of s stand for. */
  function Values(s: seq<char>): (ds: seq<Sextet>)
    ensures |ds| == Run(s) && forall i :: 0 <= i < |ds| ==> ds[i] == Pr2Six(s[i])
  {
    seq(Run(s), i requires 0 <= i < Run(s) => Pr2Six(s[i]))
  }

  lemma NoDigits()
    ensures !IsDigit('=') && !IsDigit(NUL)
  {
  }

  /** Whatever follows the encoding after its terminator, its digits are read back. */
  lemma ValuesOfEncoded(x: seq<Byte>, rest: seq<char>)
    ensures Values(Encoded(x) + [NUL] + rest) == Digits(x)
  {
    hide Digits;
    var s := Encoded(x) + [NUL] + rest;
    var n := |Digits(x)|;
    hide Letter, Pr2Six;
    forall i | 0 <= i < n
      ensures Pr2Six(s[i]) == Digits(x)[i]
    {
      StandardTables(Digits(x)[i], s[i]);
    }
    assert !IsDigit('=') && !IsDigit(NUL) by { NoDigits(); }
    assert s[n] == '=' || s[n] == NUL;
    assert Run(s) == n;
  }

  // ---------------------------------------------------------------- the coder

  function Base64encodeLen(len: nat): nat {
    (len + 2) / 3 * 4 + 1
  }

  function Base64decodeLen(coded: seq<char>): nat {
    (Run(coded) + 3) / 4 * 3 + 1
  }

  lemma {:induction false} DigitsAppend(x: seq<Byte>, y: seq<Byte>)
    requires |x| % 3 == 0
    ensures Digits(x + y) == Digits(x) + Digits(y)
  {
    if x == [] {
      assert x + y == y;
    } else {
      assert (x + y)[3..] == x[3..] + y;
      DigitsAppend(x[3..], y);
    }
  }

  /** One more group of three bytes behind whole groups. */
  lemma DigitsGroup(s: seq<Byte>, i: nat)
    requires i + 3 <= |s| && i % 3 == 0
    ensures Digits(s[..i + 3]) == Digits(s[..i]) + Group(s[i], s[i + 1], s[i + 2])
  {
    DigitsAppend(s[..i], s[i..i + 3]);
    assert s[..i] + s[i..i + 3] == s[..i + 3];
    assert s[i..i + 3][3..] == [];
    assert Digits(s[i..i + 3]) == Group(s[i], s[i + 1], s[i + 2]) + [];
  }

  lemma ToLast(s: seq<Byte>, i: nat)
    requires i <= |s| && i % 3 == 0
    ensures Digits(s) == Digits(s[..i]) + Digits(s[i..])
    ensures |Digits(s[..i])| == i / 3 * 4
  {
    DigitsAppend(s[..i], s[i..]);
    assert s[..i] + s[i..] == s;
    DigitsCount(s[..i]);
  }

  /** Four digits into the buffer. */
  method Put(encoded: array<char>, p: nat, ds: seq<Sextet>)
    requires |ds| == 4 && p + 4 <= encoded.Length
    modifies encoded
    ensures encoded[..p + 4] == old(encoded[..p]) + Chars(ds) && encoded[p + 4..] == old(encoded[p + 4..])
  {
    hide Letter, Basis;
    forall i | 0 <= i < 4
      ensures Basis(ds[i]) == Letter(ds[i])
    {
      StandardTables(ds[i], NUL);
    }
    encoded[p] := Basis(ds[0]);
    encoded[p + 1] := Basis(ds[1]);
    encoded[p + 2] := Basis(ds[2]);
    encoded[p + 3] := Basis(ds[3]);
  }

  lemma CharsAppend(a: seq<Sextet>, b: seq<Sextet>)
    ensures Chars(a + b) == Chars(a) + Chars(b)
  {
    hide Letter;
  }

  /** Base64encode: the encoding and its terminator, which is just what Base64encode_len makes room for. */
  method Base64encode(encoded: array<char>, s: seq<Byte>) returns (n: nat)
    requires encoded.Length >= Base64encodeLen(|s|)
    modifies encoded
    ensures n == Base64encodeLen(|s|) && encoded[..n] == Encoded(s) + [NUL]
    ensures encoded[n..] == old(encoded[n..])
  {
    hide Digits, Group, Chars, Letter, Encoded;
    var p, i := 0, 0;
    ToLast(s, 0);
    while i < |s| - 2
      invariant 0 <= i <= |s| && i % 3 == 0 && p == i / 3 * 4
      invariant |Digits(s[..i])| == p && encoded[..p] == Chars(Digits(s[..i]))
      invariant encoded[p..] == old(encoded[p..])
    {
      DigitsGroup(s, i);
      CharsAppend(Digits(s[..i]), Group(s[i], s[i + 1], s[i + 2]));
      Put(encoded, p, Group(s[i], s[i + 1], s[i + 2]));
      p := p + 4;
      i := i + 3;
    }
    ToLast(s, i);
    n := EncodeLast(encoded, s, i, p);
  }

  /** The digits and the padding of the last one or two bytes. */
  function Tail(x: seq<Byte>): (s: seq<char>)
    requires 1 <= |x| <= 2
    ensures |s| == 4
  {
    if |x| == 1 then [Basis(x[0] as int / 4), Basis(x[0] as int % 4 * 16), '=', '=']
    else [Basis(x[0] as int / 4), Basis(x[0] as int % 4 * 16 + x[1] as int / 16), Basis(x[1] as int % 16 * 4), '=']
  }

  lemma TailEncoded(x: seq<Byte>)
    requires 1 <= |x| <= 2
    ensures Encoded(x) == Tail(x)
  {
    hide Letter, Basis;
    var ds := Digits(x);
    forall i | 0 <= i < |ds|
      ensures Basis(ds[i]) == Letter(ds[i])
    {
      StandardTables(ds[i], NUL);
    }
  }

  lemma EncodedAppend(s: seq<Byte>, i: nat)
    requires i <= |s| && i % 3 == 0
    ensures Encoded(s) == Chars(Digits(s[..i])) + Encoded(s[i..])
  {
    hide Digits;
    ToLast(s, i);
    assert Chars(Digits(s)) == Chars(Digits(s[..i])) + Chars(Digits(s[i..]));
  }

  /** The last one or two bytes, and the terminator. */
  method EncodeLast(encoded: array<char>, s: seq<Byte>, i: nat, start: nat) returns (n: nat)
    requires i <= |s| < i + 3 && i % 3 == 0 && start == i / 3 * 4 && encoded.Length >= Base64encodeLen(|s|)
    requires encoded[..start] == Chars(Digits(s[..i]))
    modifies encoded
    ensures n == Base64encodeLen(|s|) && encoded[..n] == Encoded(s) + [NUL]
    ensures encoded[n..] == old(encoded[n..])
  {
    hide Digits, Chars, Encoded;
    var p := start;
    ghost var before := encoded[..p];
    EncodedAppend(s, i);
    if i < |s| {
      TailEncoded(s[i..]);
      var tail := Tail(s[i..]);
      encoded[p] := tail[0];
      encoded[p + 1] := tail[1];
      encoded[p + 2] := tail[2];
      encoded[p + 3] := tail[3];
      p := p + 4;
      assert encoded[..p] == before + tail;
    } else {
      NothingEncoded(s[i..]);
    }
    encoded[p] := NUL;
    n := p + 1;
  }

  lemma NothingEncoded(x: seq<Byte>)
    requires x == []
    ensures Encoded(x) == []
  {
  }

  /** The scan for the first byte that is no digit. */
  method CountDigits(coded: seq<char>) returns (nprbytes: nat)
    requires Run(coded) < |coded|
    ensures nprbytes == Run(coded)
  {
    var bufin := 0;
    while Pr2Six(coded[bufin]) <= 63
      invariant 0 <= bufin <= Run(coded)
      decreases Run(coded) - bufin
    {
      bufin := bufin + 1;
    }
    nprbytes := bufin;
  }

  /** Base64decode_len */
  method Base64decodeLength(coded: seq<char>) returns (n: nat)
    requires Run(coded) < |coded|
    ensures n == Base64decodeLen(coded)
  {
    var nprbytes := CountDigits(coded);
    n := (nprbytes + 3) / 4 * 3 + 1;
  }

  lemma {:induction false} BytesAppend(x: seq<Sextet>, y: seq<Sextet>)
    requires |x| % 4 == 0
    ensures Bytes(x + y) == Bytes(x) + Bytes(y)
  {
    if x == [] {
      assert x + y == y;
    } else {
      assert (x + y)[4..] == x[4..] + y;
      BytesAppend(x[4..], y);
    }
  }

  /** One more group of four digits behind whole groups. */
  lemma BytesGroup(ds: seq<Sextet>, i: nat)
    requires i + 4 <= |ds| && i % 4 == 0
    ensures Bytes(ds[..i + 4]) == Bytes(ds[..i]) + Ungroup(ds[i], ds[i + 1], ds[i + 2], ds[i + 3])
  {
    BytesAppend(ds[..i], ds[i..i + 4]);
    assert ds[..i] + ds[i..i + 4] == ds[..i + 4];
    assert ds[i..i + 4][4..] == [];
    assert Bytes(ds[i..i + 4]) == Ungroup(ds[i], ds[i + 1], ds[i + 2], ds[i + 3]) + [];
  }

  lemma ToLastDigits(ds: seq<Sextet>, i: nat)
    requires i <= |ds| && i % 4 == 0
    ensures Bytes(ds) == Bytes(ds[..i]) + Bytes(ds[i..])
    ensures |Bytes(ds[..i])| == i / 4 * 3
  {
    BytesAppend(ds[..i], ds[i..]);
    assert ds[..i] + ds[i..] == ds;
    BytesCount(ds[..i]);
  }

  /** A single digit left over decodes to nothing; two, three and four to one byte fewer. */
  lemma LastBytes(ds: seq<Sextet>)
    requires |ds| <= 4
    ensures |ds| <= 1 ==> Bytes(ds) == []
    ensures |ds| == 2 ==> Bytes(ds) == [(ds[0] as int * 4 + ds[1] as int / 16) % 256]
    ensures |ds| == 3 ==>
              Bytes(ds) == [(ds[0] as int * 4 + ds[1] as int / 16) % 256, (ds[1] as int * 16 + ds[2] as int / 4) % 256]
    ensures |ds| == 4 ==>
              Bytes(ds) == [(ds[0] as int * 4 + ds[1] as int / 16) % 256, (ds[1] as int * 16 + ds[2] as int / 4) % 256,
                                        (ds[2] as int * 64 + ds[3]) % 256]
  {
    if |ds| == 4 {
      assert Bytes(ds) == Ungroup(ds[0], ds[1], ds[2], ds[3]) + [];
    }
  }

  /** The buffer from position p on is as it was. */
  twostate predicate Kept(plain: array<Byte>, p: nat)
    reads plain
  {
    forall k :: p <= k < plain.Length ==> plain[k] == old(plain[k])
  }

  /** One byte of the buffer, if it is wanted. */
  method Poke(plain: array<Byte>, p: nat, wanted: bool, b: Byte) returns (q: nat)
    requires p <= plain.Length && (wanted ==> p < plain.Length)
    modifies plain
    ensures q == p + (if wanted then 1 else 0) <= plain.Length
    ensures plain[..q] == old(plain[..p]) + (if wanted then [b] else []) && Kept(plain, q)
  {
    q := p;
    if wanted {
      plain[p] := b;
      q := p + 1;
    }
  }

  /** Four digits of the text, three bytes of the buffer. */
  method DecodeGroup(plain: array<Byte>, coded: seq<char>, bufin: nat, p: nat)
    requires bufin + 4 <= Run(coded) && bufin % 4 == 0 && p + 3 <= plain.Length
    requires plain[..p] == Bytes(Values(coded)[..bufin])
    modifies plain
    ensures plain[..p + 3] == Bytes(Values(coded)[..bufin + 4]) && Kept(plain, p + 3)
  {
    hide Bytes, Ungroup, Run, Values;
    ghost var ds := Values(coded);
    BytesGroup(ds, bufin);
    var x := Ungroup(Pr2Six(coded[bufin]), Pr2Six(coded[bufin + 1]), Pr2Six(coded[bufin + 2]),
                     Pr2Six(coded[bufin + 3]));
    var q := Poke(plain, p, true, x[0]);
    q := Poke(plain, q, true, x[1]);
    q := Poke(plain, q, true, x[2]);
    assert plain[..q] == Bytes(ds[..bufin]) + x;
  }

  lemma GroupFits(count: nat, bufin: nat)
    requires bufin % 4 == 0 && bufin + 4 <= count
    ensures bufin / 4 * 3 + 3 <= (count + 3) / 4 * 3 + 1
  {
  }

  /** The loop over whole groups, which leaves up to four digits. */
  method DecodeGroups(plain: array<Byte>, coded: seq<char>, count: nat) returns (bufin: nat, bufout: nat, nprbytes: nat)
    requires count == Run(coded) < |coded| && plain.Length >= Base64decodeLen(coded)
    modifies plain
    ensures bufin + nprbytes == count && nprbytes <= 4 && bufin % 4 == 0 && bufout == bufin / 4 * 3 &&
            (nprbytes == 0 ==> bufin == 0)
    ensures bufout <= plain.Length && plain[..bufout] == Bytes(Values(coded)[..bufin]) && Kept(plain, bufout)
  {
    hide Bytes, Run, Values;
    var room := (count + 3) / 4 * 3 + 1;
    hide Base64decodeLen;
    bufin, bufout, nprbytes := 0, 0, count;
    ToLastDigits(Values(coded), 0);
    while nprbytes > 4
      invariant bufin + nprbytes == count && bufin % 4 == 0 && bufout == bufin / 4 * 3 && (nprbytes == 0 ==> bufin == 0)
      invariant bufout <= room <= plain.Length && plain[..bufout] == Bytes(Values(coded)[..bufin]) &&
                Kept(plain, bufout)
      decreases nprbytes
    {
      assert bufout + 3 <= room by { GroupFits(count, bufin); }
      DecodeGroup(plain, coded, bufin, bufout);
      bufout := bufout + 3;
      bufin := bufin + 4;
      nprbytes := nprbytes - 4;
    }
  }

  /** The two loops of the decoder, and the terminator; returns where that is. */
  method DecodeAll(plain: array<Byte>, coded: seq<char>, count: nat) returns (m: nat, left: nat)
    requires count == Run(coded) < |coded| && plain.Length >= Base64decodeLen(coded)
    modifies plain
    ensures m < plain.Length && plain[..m] == Bytes(Values(coded)) && plain[m] == 0 && Kept(plain, m + 1)
    ensures left <= 4 && left <= count && (count - left) % 4 == 0 && (left == 0 ==> count == 0)
  {
    hide Bytes, Run, Values;
    var bufin, bufout, nprbytes := DecodeGroups(plain, coded, count);
    ToLastDigits(Values(coded), bufin);
    m := DecodeLast(plain, coded, bufin, bufout);
    left := nprbytes;
  }

  /**
   * Base64decode: decodes the digits at the start of the coded text, which must end in some other byte, into a buffer
   * with the room that Base64decode_len asks for, and adds a zero byte.
   */
  method Base64decode(plain: array<Byte>, coded: seq<char>) returns (n: nat)
    requires Run(coded) < |coded| && plain.Length >= Base64decodeLen(coded)
    modifies plain
    ensures n < Base64decodeLen(coded) && plain[..n] == Bytes(Values(coded)) && plain[n] == 0
    ensures Kept(plain, n + 1)
  {
    hide Bytes, Run, Values;
    var count := CountDigits(coded);
    var nbytesdecoded := (count + 3) / 4 * 3;
    var _, nprbytes := DecodeAll(plain, coded, count);
    BytesCount(Values(coded));
    LastCount(count, count - nprbytes);
    nbytesdecoded := nbytesdecoded - (4 - nprbytes) % 4;
    n := nbytesdecoded;
  }

  /** The count of bytes decoded, when total digits are there and those before bufin have been dealt with. */
  lemma LastCount(total: nat, bufin: nat)
    requires bufin % 4 == 0 && bufin <= total <= bufin + 4 && (total == bufin ==> bufin == 0)
    ensures (total + 3) / 4 * 3 - (4 - (total - bufin)) % 4 ==
            total / 4 * 3 + (if total % 4 == 0 then 0 else total % 4 - 1)
    ensures total / 4 * 3 + (if total % 4 == 0 then 0 else total % 4 - 1) <= (total + 3) / 4 * 3
  {
  }

  /** The digit at a position, when it is one of the last. */
  function DigitAt(coded: seq<char>, i: nat): Sextet {
    if i < |coded| && Pr2Six(coded[i]) < 64 then Pr2Six(coded[i]) else 0
  }

  /** The last digits, up to four of them, and the terminator; returns where the terminator is. */
  method DecodeLast(plain: array<Byte>, coded: seq<char>, bufin: nat, start: nat) returns (m: nat)
    requires bufin <= Run(coded) <= bufin + 4 && bufin % 4 == 0 && start == bufin / 4 * 3 &&
             plain.Length >= Base64decodeLen(coded)
    requires Run(coded) == bufin ==> bufin == 0
    modifies plain
    ensures m < plain.Length && plain[..m] == old(plain[..start]) + Bytes(Values(coded)[bufin..]) && plain[m] == 0
    ensures m == start + |Bytes(Values(coded)[bufin..])| && Kept(plain, m + 1)
  {
    hide Bytes, Run, Values, Pr2Six;
    LastBytesAt(coded, bufin);
    var nprbytes := Run(coded) - bufin;
    var a, b := DigitAt(coded, bufin), DigitAt(coded, bufin + 1);
    var c, d := DigitAt(coded, bufin + 2), DigitAt(coded, bufin + 3);
    hide DigitAt;
    m := Poke(plain, start, nprbytes > 1, (a as int * 4 + b as int / 16) % 256);
    m := Poke(plain, m, nprbytes > 2, (b as int * 16 + c as int / 4) % 256);
    m := Poke(plain, m, nprbytes > 3, (c as int * 64 + d) % 256);
    plain[m] := 0;
  }

  /** What the last digits decode to. */
  lemma LastBytesAt(coded: seq<char>, bufin: nat)
    requires bufin <= Run(coded) <= bufin + 4
    ensures var a, b := DigitAt(coded, bufin), DigitAt(coded, bufin + 1);
            var c, d := DigitAt(coded, bufin + 2), DigitAt(coded, bufin + 3);
            var n := Run(coded) - bufin;
            Bytes(Values(coded)[bufin..]) == (if n > 1 then [(a as int * 4 + b as int / 16) % 256] else []) +
                                            (if n > 2 then [(b as int * 16 + c as int / 4) % 256] else []) +
                                            (if n > 3 then [(c as int * 64 + d) % 256] else [])
  {
    hide Bytes, Run, Values, Pr2Six;
    var last := Values(coded)[bufin..];
    assert forall k :: 0 <= k < |last| ==> last[k] == DigitAt(coded, bufin + k);
    hide DigitAt;
    LastBytes(last);
  }

  /** Every byte string comes back from its encoding, with its length. */
  method RoundTrip(x: seq<Byte>) returns (y: seq<Byte>)
    ensures y == x
  {
    hide Digits, Bytes, Values, Run;
    var encoded := new char[Base64encodeLen(|x|)];
    var n := Base64encode(encoded, x);
    var coded := encoded[..];
    ValuesOfEncoded(x, []);
    assert coded == Encoded(x) + [NUL] + [];
    Terminated(coded);
    BytesOfDigits(x);
    var plain := new Byte[Base64decodeLen(coded)];
    var m := Base64decode(plain, coded);
    y := plain[..m];
  }

  lemma Terminated(s: seq<char>)
    requires s != [] && s[|s| - 1] == NUL
    ensures Run(s) < |s|
  {
  }
}
