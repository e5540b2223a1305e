/** Numbers in text: xm_strtoll of windows/xenutil/xenbus.c, and the digit printers lutoa and lutoaX of
    windows/xenutil/austere.c, for the two bases that are used. */
module Digits {

  const TWO_64: nat := 0x1_0000_0000_0000_0000
  const NUMBERS: string := "0123456789ABCDEF"
  const BUF_SIZE: nat := 32

  predicate IsBase(base: nat) { base == 10 || base == 16 }

  function Times(base: nat, n: nat): nat
    requires IsBase(base)
  {
    if base == 10 then 10 * n else 16 * n
  }

  function Quotient(base: nat, n: nat): nat
    requires IsBase(base)
  {
    if base == 10 then n / 10 else n / 16
  }

  function Remainder(base: nat, n: nat): (r: nat)
    requires IsBase(base)
    ensures r < base && Times(base, Quotient(base, n)) + r == n
  {
    if base == 10 then n % 10 else n % 16
  }

  /** The value of a character as xm_strtoll takes it; `base` stands for no digit. */
  function DigitOf(c: char, base: nat): nat {
    if '0' <= c <= '9' then c as int - '0' as int
    else if 'a' <= c <= 'f' then c as int - 'a' as int + 10
    else if 'A' <= c <= 'F' then c as int - 'A' as int + 10
    else base
  }

  ghost predicate AllDigits(s: string, base: nat) { forall c :: c in s ==> DigitOf(c, base) < base }

  /** The number a numeral stands for. */
  function Value(s: string, base: nat): nat
    requires IsBase(base)
  {
    if s == [] then 0 else Times(base, Value(s[..|s| - 1], base)) + DigitOf(s[|s| - 1], base)
  }

  /** The text without the one nul that may end it. */
  function Numeral(buf: string): string {
    if buf != [] && buf[|buf| - 1] == '\0' then buf[..|buf| - 1] else buf
  }

  /** xm_strtoll reports no error for these, and only these. */
  ghost predicate Readable(s: string, base: nat)
    requires IsBase(base)
  {
    AllDigits(s, base) && Value(s, base) < TWO_64
  }

  lemma ReadableNext(s: string, c: char, base: nat)
    requires IsBase(base)
    ensures Value(s + [c], base) == Times(base, Value(s, base)) + DigitOf(c, base)
    ensures (Readable(s + [c], base) <==>
             Readable(s, base) && DigitOf(c, base) < base && Times(base, Value(s, base)) + DigitOf(c, base) < TWO_64)
  {
    assert (s + [c])[..|s|] == s;
    assert c in s + [c] && forall d :: d in s ==> d in s + [c];
  }

  /** The two overflow tests together are exact, and the sum is right if they pass. */
  lemma OverflowTests(acc: nat, digit: nat, base: nat)
    requires IsBase(base) && acc < TWO_64 && digit <= 16
    ensures var product := Times(base, acc) % TWO_64;
            var sum := (product + digit) % TWO_64;
            && (acc > Quotient(base, TWO_64 - 1) || sum < product <==> Times(base, acc) + digit >= TWO_64)
            && (Times(base, acc) + digit < TWO_64 ==> sum == Times(base, acc) + digit)
  {
  }

  /** The loop of xm_strtoll on one digit: arithmetic is modulo 2^64. */
  method AddDigit(acc: nat, digit: nat, base: nat) returns (sum: nat, err: bool)
    requires IsBase(base) && acc < TWO_64 && digit <= 16
    ensures sum < TWO_64
    ensures !err <==> digit < base && Times(base, acc) + digit < TWO_64
    ensures !err ==> sum == Times(base, acc) + digit
  {
    OverflowTests(acc, digit, base);
    err := digit >= base || acc > Quotient(base, TWO_64 - 1);
    sum := Times(base, acc) % TWO_64;
    if (sum + digit) % TWO_64 < sum {
      err := true;
    }
    sum := (sum + digit) % TWO_64;
  }

  /** xm_strtoll. */
  method StrToLL(buf: string, base: nat) returns (acc: nat, err: bool)
    requires IsBase(base)
    ensures !err <==> Readable(Numeral(buf), base)
    ensures !err ==> acc == Value(Numeral(buf), base)
  {
    acc, err := 0, false;
    var off := 0;
    while off < |buf|
      invariant off <= |buf| && acc < TWO_64
      invariant off < |buf| || buf == [] || buf[|buf| - 1] != '\0'
      invariant !err <==> Readable(buf[..off], base)
      invariant !err ==> acc == Value(buf[..off], base)
    {
      if buf[off] == '\0' && off == |buf| - 1 {
        break;
      }
      assert buf[..off + 1] == buf[..off] + [buf[off]];
      ReadableNext(buf[..off], buf[off], base);
      var fails;
      acc, fails := AddDigit(acc, DigitOf(buf[off], base), base);
      err := err || fails;
      off := off + 1;
    }
    assert buf[..off] == Numeral(buf);
  }

  // ----- Printing

  /** The numeral of n, as it is written. */
  function Numerals(n: nat, base: nat): (s: string)
    requires IsBase(base)
    ensures s != []
  {
    (if n < base then [] else Numerals(Quotient(base, n), base)) + [NUMBERS[Remainder(base, n)]]
  }

  lemma NumberChar(d: nat, base: nat)
    requires IsBase(base) && d < base
    ensures DigitOf(NUMBERS[d], base) == d && NUMBERS[d] != '\0'
  {
    assert NUMBERS[0] == '0' && NUMBERS[1] == '1' && NUMBERS[2] == '2' && NUMBERS[3] == '3' && NUMBERS[4] == '4';
    assert NUMBERS[5] == '5' && NUMBERS[6] == '6' && NUMBERS[7] == '7' && NUMBERS[8] == '8' && NUMBERS[9] == '9';
    assert NUMBERS[10] == 'A' && NUMBERS[11] == 'B' && NUMBERS[12] == 'C' && NUMBERS[13] == 'D' && NUMBERS[14] == 'E' && NUMBERS[15] == 'F';
  }

  /** Reading inverts printing. */
  lemma {:induction false} NumeralsRead(n: nat, base: nat)
    requires IsBase(base)
    ensures AllDigits(Numerals(n, base), base) && Value(Numerals(n, base), base) == n
    ensures Numeral(Numerals(n, base)) == Numerals(n, base)
  {
    if n < base {
      LastDigit([], n, base);
      assert [] + [NUMBERS[n]] == Numerals(n, base);
    } else {
      NumeralsRead(Quotient(base, n), base);
      LastDigit(Numerals(Quotient(base, n), base), Remainder(base, n), base);
    }
  }

  lemma LastDigit(front: string, d: nat, base: nat)
    requires IsBase(base) && d < base
    ensures Value(front + [NUMBERS[d]], base) == Times(base, Value(front, base)) + d
    ensures AllDigits(front, base) ==> AllDigits(front + [NUMBERS[d]], base)
    ensures Numeral(front + [NUMBERS[d]]) == front + [NUMBERS[d]]
  {
    NumberChar(d, base);
    assert (front + [NUMBERS[d]])[..|front|] == front;
  }

  function Pow10(k: nat): nat { if k == 0 then 1 else 10 * Pow10(k - 1) }

  lemma {:induction false} NumeralsShort(n: nat, base: nat, k: nat)
    requires IsBase(base) && n < Pow10(k) && k > 0
    ensures |Numerals(n, base)| <= k
  {
    if n >= base && k > 1 {
      NumeralsShort(Quotient(base, n), base, k - 1);
    }
  }

  lemma FitsBuffer(n: nat, base: nat)
    requires IsBase(base) && n < TWO_64
    ensures |Numerals(n, base)| <= BUF_SIZE
  {
    assert Pow10(4) == 10_000 && Pow10(8) == 100_000_000 && Pow10(12) == 1_000_000_000_000;
    assert Pow10(16) == 10_000_000_000_000_000 && Pow10(20) == 100_000_000_000_000_000_000;
    NumeralsShort(n, base, 20);
  }

  /** The first i places of buf hold the last i characters of the numeral, backwards. */
  ghost predicate Backwards(buf: array<char>, i: nat, all: string)
    reads buf
  {
    i <= |all| && i <= buf.Length && forall k :: 0 <= k < i ==> buf[k] == all[|all| - 1 - k]
  }

  lemma NumeralsSplit(n: nat, base: nat, all: string, i: nat)
    requires IsBase(base) && i < |all| && Numerals(n, base) == all[..|all| - i]
    ensures all[|all| - 1 - i] == NUMBERS[Remainder(base, n)]
    ensures n < base ==> i + 1 == |all|
    ensures n >= base ==> i + 1 < |all| && Numerals(Quotient(base, n), base) == all[..|all| - 1 - i]
    ensures (Quotient(base, n) == 0 <==> n < base) && (n >= base ==> Quotient(base, n) < n)
  {
    var s := Numerals(n, base);
    assert s[|s| - 1] == NUMBERS[Remainder(base, n)];
    assert n >= base ==> Numerals(Quotient(base, n), base) == s[..|s| - 1];
    assert s[..|s| - 1] == all[..|all| - 1 - i];
  }

  /** The first loop of lutoa: the digits, from the last to the first. */
  method MakeDigits(number: nat, base: nat, buf: array<char>) returns (i: nat)
    requires IsBase(base) && number < TWO_64 && buf.Length == BUF_SIZE
    modifies buf
    ensures i == |Numerals(number, base)| && Backwards(buf, i, Numerals(number, base))
  {
    i := 0;
    var n := number;
    FitsBuffer(number, base);
    ghost var all := Numerals(number, base);
    while true
      invariant i < |all| && Numerals(n, base) == all[..|all| - i] && Backwards(buf, i, all)
      decreases n
    {
      NumeralsSplit(n, base, all, i);
      var quotient := Quotient(base, n);
      buf[i] := NUMBERS[Remainder(base, n)];
      i := i + 1;
      if quotient == 0 {
        break;
      }
      n := quotient;
    }
  }

  /** lutoa for numbers of up to 64 bits; with base 16 this is lutoaX.  The digits are copied in order as far
      as there is room. */
  method Lutoa(number: nat, base: nat, bufsz: nat) returns (str: string)
    requires IsBase(base) && number < TWO_64
    ensures str == Numerals(number, base)[..if bufsz < |Numerals(number, base)| then bufsz else |Numerals(number, base)|]
  {
    var buf := new char[BUF_SIZE];
    var i: nat := MakeDigits(number, base, buf);
    ghost var all := Numerals(number, base);
    str := [];
    var left: nat := bufsz;
    while i > 0 && left > 0
      invariant Backwards(buf, i, all) && str == all[..|all| - i] && |str| + left == bufsz
    {
      i, left := i - 1, left - 1;
      str := str + [buf[i]];
    }
  }

  /** Given enough room, a number survives being printed and read. */
  method PrintAndRead(number: nat, base: nat, bufsz: nat) returns (n: nat, err: bool)
    requires IsBase(base) && number < TWO_64 && bufsz >= |Numerals(number, base)|
    ensures !err && n == number
  {
    NumeralsRead(number, base);
    var str := Lutoa(number, base, bufsz);
    assert str == Numerals(number, base);
    n, err := StrToLL(str, base);
  }
}
