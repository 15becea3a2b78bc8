/** Numbers as text: what printf writes with %u and %d, and what strtol and strtoul read back. */
module Decimal {
  import opened Bacnet

  const LONG_MAX := 0x7FFF_FFFF_FFFF_FFFF
  const ULONG_MAX := 0xFFFF_FFFF_FFFF_FFFF

  function DigitChar(d: nat): (c: char)
    requires d < 10
    ensures '0' <= c <= '9'
  {
    '0' + d as char
  }

  /** The decimal digits of a number, without sign or leading zeros. */
  function Print(n: nat): (s: string)
    ensures |s| > 0
  {
    if n < 10 then [DigitChar(n)] else Print(n / 10) + [DigitChar(n % 10)]
  }

  /** The value of a digit in some base up to 36, or 36. */
  function DigitValue(c: char): (v: nat)
    ensures v <= 36
  {
    if '0' <= c <= '9' then c as nat - '0' as nat
    else if 'a' <= c <= 'z' then c as nat - 'a' as nat + 10
    else if 'A' <= c <= 'Z' then c as nat - 'A' as nat + 10
    else 36
  }

  /** Reads digits of a base up to the first other character. */
  function ReadDigits(s: string, base: nat, sofar: nat): nat {
    if s == [] || DigitValue(s[0]) >= base then sofar
    else ReadDigits(s[1..], base, sofar * base + DigitValue(s[0]))
  }

  predicate IsSpace(c: char) {
    c == ' ' || '\t' <= c <= '\r'
  }

  function SkipSpace(s: string): string {
    if s != [] && IsSpace(s[0]) then SkipSpace(s[1..]) else s
  }

  /** An optional sign and what follows it. */
  function Sign(s: string): (bool, string) {
    if s != [] && (s[0] == '-' || s[0] == '+') then (s[0] == '-', s[1..]) else (false, s)
  }

  /** The magnitude `strtol` reads in base 0: hexadecimal after 0x, octal after 0, else decimal. */
  function Magnitude(s: string): nat {
    if |s| >= 3 && s[0] == '0' && (s[1] == 'x' || s[1] == 'X') && DigitValue(s[2]) < 16 then ReadDigits(s[2..], 16, 0)
    else if s != [] && s[0] == '0' then ReadDigits(s, 8, 0)
    else ReadDigits(s, 10, 0)
  }

  /** `strtol (s, NULL, 0)` with a 64-bit long. */
  function Strtol(s: string): int {
    var (negative, rest) := Sign(SkipSpace(s));
    var m: int := Magnitude(rest);
    if negative then (if m > LONG_MAX + 1 then -LONG_MAX - 1 else -m)
    else if m > LONG_MAX then LONG_MAX
    else m
  }

  /** `strtoul (s, NULL, 10)` with a 64-bit long. */
  function Strtoul(s: string): nat {
    var (negative, rest) := Sign(SkipSpace(s));
    var m := ReadDigits(rest, 10, 0);
    if m > ULONG_MAX then ULONG_MAX else if negative && m != 0 then ULONG_MAX + 1 - m else m
  }

  function ToUint32(n: int): uint32 {
    n % 0x1_0000_0000
  }

  function ToUint16(n: int): uint16 {
    n % 0x1_0000
  }

  predicate AllDigits(s: string) {
    forall i :: 0 <= i < |s| ==> '0' <= s[i] <= '9'
  }

  // ---- What is printed ----

  lemma {:induction false} PrintDigits(n: nat)
    ensures AllDigits(Print(n))
    ensures Print(n)[0] == '0' <==> n == 0
  {
    if n < 10 {
    } else {
      PrintDigits(n / 10);
    }
  }

  /** A number below 10^k prints in at most k digits. */
  lemma {:induction false} PrintLength(n: nat, k: nat)
    requires k > 0 && n < Power(k)
    ensures |Print(n)| <= k
  {
    if n < 10 {
    } else {
      assert n / 10 < Power(k - 1);
      PrintLength(n / 10, k - 1);
    }
  }

  function Power(k: nat): nat {
    if k == 0 then 1 else 10 * Power(k - 1)
  }

  // ---- Reading it back ----

  predicate IsDigits(s: string, base: nat) {
    forall i :: 0 <= i < |s| ==> DigitValue(s[i]) < base
  }

  lemma {:induction false} ReadLast(s: string, c: char, rest: string, base: nat, sofar: nat)
    requires IsDigits(s, base) && DigitValue(c) < base
    ensures ReadDigits(s + [c] + rest, base, sofar)
         == ReadDigits(rest, base, ReadDigits(s, base, sofar) * base + DigitValue(c))
  {
    if s == [] {
      assert s + [c] + rest == [c] + rest && ([c] + rest)[1..] == rest;
    } else {
      assert (s + [c] + rest)[1..] == s[1..] + [c] + rest && (s + [c] + rest)[0] == s[0];
      ReadLast(s[1..], c, rest, base, sofar * base + DigitValue(s[0]));
    }
  }

  /** Reading stops at the end of the digits, at whatever follows that is not one. */
  lemma {:induction false} ReadPrinted(n: nat, rest: string)
    requires rest != [] ==> DigitValue(rest[0]) >= 10
    ensures ReadDigits(Print(n) + rest, 10, 0) == n
  {
    if n < 10 {
      assert Print(n) + rest == [] + [DigitChar(n)] + rest;
      ReadLast([], DigitChar(n), rest, 10, 0);
    } else {
      PrintDigits(n / 10);
      assert Print(n) + rest == Print(n / 10) + [DigitChar(n % 10)] + rest;
      ReadLast(Print(n / 10), DigitChar(n % 10), rest, 10, 0);
      ReadPrinted(n / 10, []);
      assert Print(n / 10) + [] == Print(n / 10);
    }
  }

  /** `strtol` in base 0 reads a printed number as decimal, whatever follows its digits. */
  lemma StrtolPrinted(n: nat, rest: string)
    requires n <= LONG_MAX && (rest != [] ==> rest[0] != 'x' && rest[0] != 'X' && DigitValue(rest[0]) >= 10)
    ensures Strtol(Print(n) + rest) == n
  {
    PrintDigits(n);
    ReadPrinted(n, rest);
    var s := Print(n) + rest;
    assert s[0] == Print(n)[0];
    if n == 0 {
      assert s == ['0'] + rest && s[1..] == rest && (rest != [] ==> s[1] == rest[0]);
      assert ReadDigits(rest, 8, 0) == 0 && ReadDigits(s, 8, 0) == ReadDigits(rest, 8, 0);
    }
  }

  lemma StrtoulPrinted(n: nat)
    requires n <= ULONG_MAX
    ensures Strtoul(Print(n)) == n
  {
    PrintDigits(n);
    ReadPrinted(n, []);
    assert Print(n) + [] == Print(n);
  }

  lemma Uint32Fits(n: int)
    requires 0 <= n < 0x1_0000_0000
    ensures ToUint32(n) == n
  {
  }

  /** Printing with %u and reading with strtoul keeps every 32-bit number. */
  lemma Uint32Kept(n: uint32)
    ensures ToUint32(Strtoul(Print(n))) == n
  {
    StrtoulPrinted(n);
    Uint32Fits(n);
  }

  // ---- What strtol and strtoul make of other texts ----

  /** What follows the digits: nothing, or something that is not a digit of the base. */
  predicate Stops(rest: string, base: nat) {
    rest != [] ==> DigitValue(rest[0]) >= base
  }

  /** The value of digits, the last one counting once and each other `base` times as much as the next. */
  function Positional(s: string, base: nat): nat {
    if s == [] then 0 else Positional(s[..|s| - 1], base) * base + DigitValue(s[|s| - 1])
  }

  /** Reading gives the positional value of the digits, whatever follows them. */
  lemma {:induction false} ReadsPositional(s: string, rest: string, base: nat)
    requires IsDigits(s, base) && Stops(rest, base)
    ensures ReadDigits(s + rest, base, 0) == Positional(s, base)
  {
    if s == [] {
      assert s + rest == rest;
    } else {
      var t, c := s[..|s| - 1], s[|s| - 1];
      assert s + rest == t + [c] + rest;
      ReadLast(t, c, rest, base, 0);
      ReadsPositional(t, [], base);
      assert t + [] == t;
    }
  }

  /** After 0x, `strtol` in base 0 reads hexadecimal digits; 2^63 and more saturate. */
  lemma StrtolHex(s: string, rest: string)
    requires s != [] && IsDigits(s, 16) && Stops(rest, 16)
    ensures Strtol("0x" + s + rest) == Saturated(Positional(s, 16))
  {
    ReadsPositional(s, rest, 16);
    var t := "0x" + s + rest;
    assert t[0] == '0' && t[1] == 'x' && t[2] == s[0] && t[2..] == s + rest;
  }

  /** After another 0 it reads octal digits. */
  lemma StrtolOctal(s: string, rest: string)
    requires IsDigits(s, 8) && Stops(rest, 8) && (s == [] && rest != [] ==> rest[0] != 'x' && rest[0] != 'X')
    ensures Strtol("0" + s + rest) == Saturated(Positional(s, 8))
  {
    ReadsPositional(s, rest, 8);
    var t := "0" + s + rest;
    assert t[0] == '0' && t[1..] == s + rest;
    assert |t| >= 2 ==> t[1] == (s + rest)[0];
    assert ReadDigits(t, 8, 0) == ReadDigits(s + rest, 8, 0);
  }

  /** After another digit it reads decimal digits. */
  lemma StrtolDecimal(s: string, rest: string)
    requires s != [] && IsDigits(s, 10) && s[0] != '0' && Stops(rest, 10)
    ensures Strtol(s + rest) == Saturated(Positional(s, 10))
  {
    ReadsPositional(s, rest, 10);
    assert (s + rest)[0] == s[0];
  }

  function Saturated(n: nat): int {
    if n >= 0x8000_0000_0000_0000 then 0x7FFF_FFFF_FFFF_FFFF else n
  }

  /** White space in front, a blank or one of the characters 9 to 13, is skipped, and a minus sign in front
      of a digit negates. */
  lemma StrtolSigned(s: string, space: char)
    requires s != [] && DigitValue(s[0]) < 10 && (space as int == 32 || 9 <= space as int <= 13)
    ensures Strtol([space] + s) == Strtol(s) && Strtol("+" + s) == Strtol(s)
    ensures Strtol(s) < 0x7FFF_FFFF_FFFF_FFFF ==> Strtol("-" + s) == -Strtol(s)
  {
    assert ([space] + s)[1..] == s;
    assert ("+" + s)[0] == '+' && ("+" + s)[1..] == s;
    assert ("-" + s)[0] == '-' && ("-" + s)[1..] == s;
  }

  /** `strtoul` in base 10 reads decimal digits, leading zeros or not; a minus sign wraps around, and 2^64
      and more saturate. */
  lemma StrtoulDecimal(s: string, rest: string)
    requires s != [] && IsDigits(s, 10) && Stops(rest, 10)
    ensures var n := Positional(s, 10);
            if n >= 0x1_0000_0000_0000_0000 then
              Strtoul(s + rest) == 0xFFFF_FFFF_FFFF_FFFF == Strtoul("-" + s + rest)
            else
              && Strtoul(s + rest) == n
              && Strtoul("-" + s + rest) == if n == 0 then 0 else 0x1_0000_0000_0000_0000 - n
  {
    ReadsPositional(s, rest, 10);
    assert (s + rest)[0] == s[0];
    var t := "-" + s + rest;
    assert t[0] == '-' && t[1..] == s + rest;
  }
}
