/** Decimal numbers as printf writes them and as strtoumax and strtoimax read them (src/data.c). */
module Decimal {
  import opened Common
  import opened Csv

  const UINT32_LIMIT := 0x1_0000_0000
  const INT32_LIMIT := 0x8000_0000
  const UINTMAX := 0xFFFF_FFFF_FFFF_FFFF
  const INTMAX := 0x7FFF_FFFF_FFFF_FFFF

  predicate IsDigit(c: char) { '0' <= c <= '9' }

  function DigitOf(d: nat): char
    requires d < 10
  {
    ('0' as int + d) as char
  }

  function ValueOf(c: char): nat
    requires IsDigit(c)
  {
    c as int - '0' as int
  }

  /** %llu */
  function Unsigned(n: nat): (s: string)
    ensures s != "" && forall k :: 0 <= k < |s| ==> IsDigit(s[k])
  {
    if n < 10 then [DigitOf(n)] else Unsigned(n / 10) + [DigitOf(n % 10)]
  }

  /** %d */
  function Signed(n: int): (s: string)
    ensures s != "" && (IsDigit(s[0]) || s[0] == '-')
  {
    if n < 0 then "-" + Unsigned(-n) else Unsigned(n)
  }

  function SkipSpaces(s: string): string {
    if s != "" && IsSpace(s[0]) then SkipSpaces(s[1..]) else s
  }

  /** The digits at the front of s appended to the number acc, and the rest of s. */
  function Digits(s: string, acc: nat): (nat, string) {
    if s != "" && IsDigit(s[0]) then Digits(s[1..], 10 * acc + ValueOf(s[0])) else (acc, s)
  }

  /** A sign, a magnitude and the unread rest; None when there is no number at all. */
  function Number(s: string): Option<(bool, nat, string)> {
    var t := SkipSpaces(s);
    var negative := t != "" && t[0] == '-';
    var u := if t != "" && (t[0] == '-' || t[0] == '+') then t[1..] else t;
    if u == "" || !IsDigit(u[0]) then None
    else var (n, rest) := Digits(u, 0); Some((negative, n, rest))
  }

  function Min(a: int, b: int): int { if a < b then a else b }

  /** strtoumax: saturates, and negates modulo 2^64. */
  function ToUnsigned(negative: bool, n: nat): nat {
    if n > UINTMAX then UINTMAX else if negative && n > 0 then UINTMAX + 1 - n else n
  }

  /** set_uint32; without a number strtoumax stops at the start, which is the end of an empty string. */
  function Uint32(s: string): (r: Option<nat>)
    ensures r.Some? ==> r.value < UINT32_LIMIT
  {
    match Number(s)
    case None => if s == "" then Some(0) else None
    case Some((negative, n, rest)) =>
      if rest == "" && ToUnsigned(negative, n) < UINT32_LIMIT then Some(ToUnsigned(negative, n)) else None
  }

  /** set_int32. */
  function Int32(s: string): (r: Option<int>)
    ensures r.Some? ==> -INT32_LIMIT <= r.value < INT32_LIMIT
  {
    match Number(s)
    case None => if s == "" then Some(0) else None
    case Some((negative, n, rest)) =>
      var v := if negative then -Min(n, INTMAX + 1) else Min(n, INTMAX);
      if rest == "" && -INT32_LIMIT <= v < INT32_LIMIT then Some(v) else None
  }

  ghost predicate AllDigits(s: string) { forall k :: 0 <= k < |s| ==> IsDigit(s[k]) }

  lemma {:induction false} DigitsSplit(a: string, b: string, acc: nat)
    requires AllDigits(a)
    ensures Digits(a + b, acc) == Digits(b, Digits(a, acc).0) && Digits(a, acc).1 == ""
  {
    if a == "" {
      assert a + b == b;
    } else {
      assert (a + b)[1..] == a[1..] + b;
      DigitsSplit(a[1..], b, 10 * acc + ValueOf(a[0]));
    }
  }

  lemma {:induction false} UnsignedDigits(n: nat)
    ensures Digits(Unsigned(n), 0) == (n, "")
  {
    if n < 10 {
      assert Unsigned(n)[1..] == "";
    } else {
      var d := [DigitOf(n % 10)];
      UnsignedDigits(n / 10);
      DigitsSplit(Unsigned(n / 10), d, 0);
      assert d[1..] == "";
      assert Digits(d, n / 10) == Digits(d[1..], 10 * (n / 10) + ValueOf(d[0]));
    }
  }

  /** What %llu printed is read back if and only if it fits 32 bits. */
  lemma UnsignedReads(n: nat)
    ensures Uint32(Unsigned(n)) == if n < UINT32_LIMIT then Some(n) else None
  {
    UnsignedDigits(n);
  }

  /** What %d printed is read back if and only if it fits 32 bits. */
  lemma SignedReads(n: int)
    ensures Int32(Signed(n)) == if -INT32_LIMIT <= n < INT32_LIMIT then Some(n) else None
  {
    if n < 0 {
      UnsignedDigits(-n);
      assert Signed(n)[1..] == Unsigned(-n);
    } else {
      UnsignedDigits(n);
    }
  }

  /** How numbers are written and read. */
  lemma NumberExamples()
    ensures Unsigned(0) == "0" && Unsigned(1234) == "1234" && Signed(-56) == "-56" && Signed(7) == "7"
    ensures Int32("") == Some(0) && Int32("-") == None && Int32("7x") == None && Int32("x") == None
    ensures Uint32("") == Some(0) && Uint32("7x") == None
  {
    assert Unsigned(1234) == Unsigned(123) + "4" && Unsigned(123) == Unsigned(12) + "3";
    assert Unsigned(12) == Unsigned(1) + "2";
    assert Unsigned(56) == Unsigned(5) + "6";
    assert "7x"[1..] == "x" && Digits("7x", 0) == Digits("x", 7);
    assert "-"[1..] == "";
  }

  /** Blanks and a sign may stand before the digits, and zeros at their front do not matter. */
  lemma {:induction false} Prefixes(s: string)
    ensures Int32(" " + s) == Int32(s) || s == ""
    ensures s != "" && IsDigit(s[0]) ==> Int32("+" + s) == Int32(s) && Int32("0" + s) == Int32(s)
  {
    assert (" " + s)[1..] == s && ("+" + s)[1..] == s && ("0" + s)[1..] == s;
    assert SkipSpaces(" " + s) == SkipSpaces(s);
    if s != "" && IsDigit(s[0]) {
      assert SkipSpaces("+" + s) == "+" + s && SkipSpaces("0" + s) == "0" + s && SkipSpaces(s) == s;
      assert Digits("0" + s, 0) == Digits(s, 0);
    }
  }

  lemma NumbersRepresentable(n: nat, m: int)
    ensures Representable(Unsigned(n)) && Representable(Signed(m))
  {
    assert NEWLINE !in Unsigned(if m < 0 then -m else m);
  }
}
