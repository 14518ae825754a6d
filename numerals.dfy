/** The digit engine shared by the printers: the digit tables, the numeral of
    an unsigned value in a base from 2 to 16, and reading a numeral back. */
module Numerals {
  import opened CText

  const LowerDigits: seq<Byte> := "0123456789abcdef"
  const UpperDigits: seq<Byte> := "0123456789ABCDEF"

  /** The digit for `d`, taken from the table of the requested case. */
  function DigitChar(d: nat, upper: bool): Byte
    requires d < 16
  {
    if upper then UpperDigits[d] else LowerDigits[d]
  }

  /** The value of a hexadecimal digit of either case (0 for any other byte). */
  function DigitValue(c: Byte): nat {
    if '0' <= c <= '9' then c as int - '0' as int
    else if 'a' <= c <= 'f' then c as int - 'a' as int + 10
    else if 'A' <= c <= 'F' then c as int - 'A' as int + 10
    else 0
  }

  /** `c` is the digit of its own value, below `base`, in the requested case. */
  predicate IsDigit(c: Byte, base: nat, upper: bool) {
    DigitValue(c) < base && DigitValue(c) < 16 && c == DigitChar(DigitValue(c), upper)
  }

  lemma DigitCharValue(d: nat, upper: bool)
    requires d < 16
    ensures DigitValue(DigitChar(d, upper)) == d
    ensures DigitChar(d, upper) == '0' <==> d == 0
    ensures d >= 10 ==> (if upper then 'A' <= DigitChar(d, upper) <= 'F' else 'a' <= DigitChar(d, upper) <= 'f')
    ensures d < 10 ==> '0' <= DigitChar(d, upper) <= '9'
  {
    assert d == 0 || d == 1 || d == 2 || d == 3 || d == 4 || d == 5 || d == 6 || d == 7
        || d == 8 || d == 9 || d == 10 || d == 11 || d == 12 || d == 13 || d == 14 || d == 15;
  }

  /** The significant digits of `v`, most significant first; none for 0. */
  function Digits(v: nat, base: nat, upper: bool): seq<Byte>
    requires 2 <= base <= 16
    decreases v
  {
    if v == 0 then [] else Digits(v / base, base, upper) + [DigitChar(v % base, upper)]
  }

  /** What `ultoa_base` renders: the significant digits, or "0" for zero. */
  function Numeral(v: nat, base: nat, upper: bool): seq<Byte>
    requires 2 <= base <= 16
  {
    if v == 0 then "0" else Digits(v, base, upper)
  }

  /** Reads a digit string back as a number in `base`. */
  function FromDigits(s: seq<Byte>, base: nat): nat {
    if s == [] then 0 else FromDigits(s[..|s| - 1], base) * base + DigitValue(s[|s| - 1])
  }

  lemma {:induction false} DigitsRoundTrip(v: nat, base: nat, upper: bool)
    requires 2 <= base <= 16
    ensures FromDigits(Digits(v, base, upper), base) == v
    decreases v
  {
    if v != 0 {
      var q, d := v / base, v % base;
      DigitsRoundTrip(q, base, upper);
      DigitCharValue(d, upper);
      FromDigitsSnoc(Digits(q, base, upper), DigitChar(d, upper), base);
      DivMod(v, base);
    }
  }

  lemma FromDigitsSnoc(s: seq<Byte>, c: Byte, base: nat)
    ensures FromDigits(s + [c], base) == FromDigits(s, base) * base + DigitValue(c)
  {
    assert (s + [c])[..|s|] == s;
  }

  lemma DivMod(v: nat, b: nat)
    requires b > 0
    ensures v / b * b + v % b == v
  {
  }

  lemma DivLess(v: nat, b: nat)
    requires b >= 2
    ensures 0 <= v / b && (v > 0 ==> v / b < v)
    ensures 0 <= v % b < b
  {
    DivMod(v, b);
  }

  /** One step of the digit loop: the last digit is the remainder, the rest
      are the digits of the quotient, which is smaller. */
  lemma DigitsStep(v: nat, base: nat, upper: bool)
    requires 2 <= base <= 16 && v > 0
    ensures 0 <= v / base < v && 0 <= v % base < base
    ensures Digits(v, base, upper) == Digits(v / base, base, upper) + [DigitChar(v % base, upper)]
  {
    DivLess(v, base);
  }

  /** Reading the numeral back in the same base gives the value. */
  lemma NumeralRoundTrip(v: nat, base: nat, upper: bool)
    requires 2 <= base <= 16
    ensures FromDigits(Numeral(v, base, upper), base) == v
  {
    if v != 0 {
      DigitsRoundTrip(v, base, upper);
    } else {
      assert FromDigits("0", base) == FromDigits([], base) * base + DigitValue('0');
    }
  }

  lemma {:induction false} DigitsLeadingDigit(v: nat, base: nat, upper: bool)
    requires 2 <= base <= 16
    requires v > 0
    ensures |Digits(v, base, upper)| >= 1 && Digits(v, base, upper)[0] != '0'
    decreases v
  {
    DivLess(v, base);
    if v / base == 0 {
      DivMod(v, base);
      DigitCharValue(v % base, upper);
    } else {
      DigitsLeadingDigit(v / base, base, upper);
    }
  }

  /** The numeral is never empty, and its first digit is '0' exactly when the
      value is zero, in which case the numeral is that one digit. */
  lemma NumeralLeadingDigit(v: nat, base: nat, upper: bool)
    requires 2 <= base <= 16
    ensures |Numeral(v, base, upper)| >= 1
    ensures Numeral(v, base, upper)[0] == '0' <==> v == 0
    ensures v == 0 ==> Numeral(v, base, upper) == "0"
  {
    if v > 0 {
      DigitsLeadingDigit(v, base, upper);
    }
  }

  lemma {:induction false} DigitsCase(v: nat, base: nat, upper: bool)
    requires 2 <= base <= 16
    ensures forall k | 0 <= k < |Digits(v, base, upper)| :: IsDigit(Digits(v, base, upper)[k], base, upper)
    decreases v
  {
    if v != 0 {
      DigitsCase(v / base, base, upper);
      DigitCharValue(v % base, upper);
    }
  }

  /** Every byte of the numeral is a digit below the base, in the case the
      `upper` flag asks for. */
  lemma NumeralCase(v: nat, base: nat, upper: bool)
    requires 2 <= base <= 16
    ensures forall k | 0 <= k < |Numeral(v, base, upper)| :: IsDigit(Numeral(v, base, upper)[k], base, upper)
  {
    DigitsCase(v, base, upper);
    DigitCharValue(0, upper);
  }

  /** A decimal numeral is made of the bytes '0' to '9'. */
  lemma DecimalNumeral(v: nat)
    ensures forall k | 0 <= k < |Numeral(v, 10, false)| :: '0' <= Numeral(v, 10, false)[k] <= '9'
  {
    var s := Numeral(v, 10, false);
    NumeralCase(v, 10, false);
    forall k | 0 <= k < |s|
      ensures '0' <= s[k] <= '9'
    {
      DigitCharValue(DigitValue(s[k]), false);
    }
  }

  /** A numeral holds no NUL, so it is a C string. */
  lemma NumeralNulFree(v: nat, base: nat, upper: bool)
    requires 2 <= base <= 16
    ensures NulFree(Numeral(v, base, upper))
  {
    var s := Numeral(v, base, upper);
    NumeralCase(v, base, upper);
    forall k | 0 <= k < |s|
      ensures s[k] != '\0'
    {
      DigitCharValue(DigitValue(s[k]), upper);
    }
  }

  function Pow2(k: nat): nat {
    if k == 0 then 1 else 2 * Pow2(k - 1)
  }

  /** 2^64, reached four doublings at a time. */
  lemma Pow2Of64()
    ensures Pow2(64) == 0x1_0000_0000_0000_0000
  {
    assert Pow2(4) == 0x10;
    assert Pow2(8) == 0x100;
    assert Pow2(12) == 0x1000;
    assert Pow2(16) == 0x10000;
    assert Pow2(20) == 0x100000;
    assert Pow2(24) == 0x1000000;
    assert Pow2(28) == 0x10000000;
    assert Pow2(32) == 0x100000000;
    assert Pow2(36) == 0x1000000000;
    assert Pow2(40) == 0x10000000000;
    assert Pow2(44) == 0x100000000000;
    assert Pow2(48) == 0x1000000000000;
    assert Pow2(52) == 0x10000000000000;
    assert Pow2(56) == 0x100000000000000;
    assert Pow2(60) == 0x1000000000000000;
    assert Pow2(64) == 0x10000000000000000;
  }

  /** A value below 2^k has at most k significant digits in any base. */
  lemma {:induction false} DigitsLength(v: nat, base: nat, upper: bool, k: nat)
    requires 2 <= base <= 16
    requires v < Pow2(k)
    ensures |Digits(v, base, upper)| <= k
    decreases v
  {
    if v != 0 {
      assert k > 0;
      assert v / base <= v / 2;
      DigitsLength(v / base, base, upper, k - 1);
    }
  }

  lemma {:induction false} FromDigitsZeros(n: int, base: nat)
    ensures FromDigits(Zeros(n), base) == 0
    decreases n
  {
    if n > 0 {
      assert Zeros(n)[..|Zeros(n)| - 1] == Zeros(n - 1);
      FromDigitsZeros(n - 1, base);
    }
  }

  /** Leading zeros do not change the value a digit string reads as. */
  lemma {:induction false} FromDigitsLeadingZeros(n: int, s: seq<Byte>, base: nat)
    ensures FromDigits(Zeros(n) + s, base) == FromDigits(s, base)
    decreases |s|
  {
    if s == [] {
      assert Zeros(n) + s == Zeros(n);
      FromDigitsZeros(n, base);
    } else {
      var t := Zeros(n) + s;
      assert t[..|t| - 1] == Zeros(n) + s[..|s| - 1];
      FromDigitsLeadingZeros(n, s[..|s| - 1], base);
    }
  }
}
