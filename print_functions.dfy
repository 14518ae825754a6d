/** The older, option-less printers: each one reads its argument, writes its
    bytes one `write` at a time and returns how many it wrote. The two
    number printers recurse on the quotient, printing the higher digits
    before the last one. */
module MinimalPrinters {
  import opened CText
  import opened Numerals

  /** `print_number`: a '-' for a negative `n`, then the decimal digits of its
      magnitude, the higher ones by the recursive call on `num / 10` and the
      last from the table "0123456789". */
  function PrintNumber(n: Int32): (w: Written)
    ensures w.bytes == (if n < 0 then "-" else []) + Numeral(Abs(n), 10, false)
    ensures w.count == |w.bytes|
    decreases Abs(n)
  {
    var sign: seq<Byte> := if n < 0 then "-" else [];
    var num := Abs(n);
    DivLess(num, 10);
    var high := if num / 10 != 0 then PrintNumber(num / 10) else Written([], 0);
    assert num > 0 ==> Digits(num, 10, false) == Digits(num / 10, 10, false) + [DigitChar(num % 10, false)] by {
      if num > 0 { DigitsStep(num, 10, false); }
    }
    Written(sign + high.bytes + [DigitChar(num % 10, false)], |sign| + high.count + 1)
  }

  /** `print_binary_recursive`: the binary digits of `n`, the higher ones by
      the recursive call on `n / 2` and the last from the table "01". */
  function PrintBinaryRecursive(n: UInt32): (w: Written)
    ensures w.bytes == Numeral(n, 2, false)
    ensures w.count == |w.bytes|
    decreases n
  {
    DivLess(n, 2);
    var high := if n / 2 != 0 then PrintBinaryRecursive(n / 2) else Written([], 0);
    assert n > 0 ==> Digits(n, 2, false) == Digits(n / 2, 2, false) + [DigitChar(n % 2, false)] by {
      if n > 0 { DigitsStep(n, 2, false); }
    }
    Written(high.bytes + [DigitChar(n % 2, false)], high.count + 1)
  }

  /** `print_int`: pops an `int` and prints it with `print_number`. */
  method PrintInt(args: seq<Arg>) returns (out: seq<Byte>, count: int, rest: seq<Arg>)
    requires |args| > 0 && args[0].IntArg?
    ensures out == (if args[0].i < 0 then "-" else []) + Numeral(Abs(args[0].i), 10, false)
    ensures count == |out|
    ensures rest == args[1..]
  {
    var w := PrintNumber(args[0].i);
    out, count, rest := w.bytes, w.count, args[1..];
  }

  /** `print_binary`: pops an `unsigned int` and prints it in base 2. */
  method PrintBinary(args: seq<Arg>) returns (out: seq<Byte>, count: int, rest: seq<Arg>)
    requires |args| > 0 && args[0].UIntArg?
    ensures out == Numeral(args[0].u, 2, false)
    ensures count == |out|
    ensures rest == args[1..]
  {
    var w := PrintBinaryRecursive(args[0].u);
    out, count, rest := w.bytes, w.count, args[1..];
  }

  /** `print_string`: pops a `char *` (NULL reads as "(null)") and writes its
      bytes up to the terminator, counting them. */
  method PrintString(args: seq<Arg>) returns (out: seq<Byte>, count: int, rest: seq<Arg>)
    requires |args| > 0 && args[0].StrArg?
    ensures out == OrNull(args[0].s)
    ensures count == |out|
    ensures rest == args[1..]
  {
    var str := OrNull(args[0].s);
    rest := args[1..];
    out, count := [], 0;
    while At(str, count) != '\0'
      invariant 0 <= count <= |str|
      invariant out == str[..count]
      decreases |str| - count
    {
      assert str[..count + 1] == str[..count] + [str[count]];
      out := out + [str[count]];
      count := count + 1;
    }
  }

  /** `print_char`: pops an `int` and writes it as one `char`. */
  method PrintChar(args: seq<Arg>) returns (out: seq<Byte>, count: int, rest: seq<Arg>)
    requires |args| > 0 && args[0].IntArg?
    ensures out == [ToChar(args[0].i)]
    ensures count == 1
    ensures rest == args[1..]
  {
    var c := ToChar(args[0].i);
    out, count, rest := [c], 1, args[1..];
  }

  /** `print_percent`: writes "%" and reads no argument. */
  method PrintPercent(args: seq<Arg>) returns (out: seq<Byte>, count: int, rest: seq<Arg>)
    ensures out == "%"
    ensures count == 1
    ensures rest == args
  {
    out, count, rest := "%", 1, args;
  }

  /** The decimal printer's digits read back as the magnitude, have no
      leading zero unless the value is zero (which prints "0"), and the count
      is the digit count plus one for a negative value. */
  lemma PrintNumberDigits(n: Int32)
    ensures var w := PrintNumber(n);
      var digits := if n < 0 then w.bytes[1..] else w.bytes;
      && (n < 0 <==> w.bytes[0] == '-')
      && FromDigits(digits, 10) == Abs(n)
      && (digits[0] == '0' <==> n == 0)
      && (n == 0 ==> w.bytes == "0")
      && (forall k | 0 <= k < |digits| :: '0' <= digits[k] <= '9')
      && w.count == |digits| + (if n < 0 then 1 else 0)
  {
    var w := PrintNumber(n);
    var num := Abs(n);
    var s := Numeral(num, 10, false);
    NumeralRoundTrip(num, 10, false);
    NumeralLeadingDigit(num, 10, false);
    DecimalNumeral(num);
    assert s[0] != '-';
    if n < 0 {
      assert w.bytes == "-" + s;
      assert w.bytes[1..] == s;
    } else {
      assert w.bytes == s;
    }
  }

  /** The binary printer's digits are '0' and '1' only, read back as `n`, and
      have no leading zero unless `n` is zero. */
  lemma PrintBinaryDigits(n: UInt32)
    ensures var w := PrintBinaryRecursive(n);
      && FromDigits(w.bytes, 2) == n
      && (forall k | 0 <= k < |w.bytes| :: w.bytes[k] == '0' || w.bytes[k] == '1')
      && (w.bytes[0] == '0' <==> n == 0)
  {
    var w := PrintBinaryRecursive(n);
    NumeralRoundTrip(n, 2, false);
    NumeralLeadingDigit(n, 2, false);
    NumeralCase(n, 2, false);
    forall k | 0 <= k < |w.bytes|
      ensures w.bytes[k] == '0' || w.bytes[k] == '1'
    {
      DigitCharValue(DigitValue(w.bytes[k]), false);
    }
  }

  /** The binary printer's count is the bit length of `n`: at least one, with
      `n` below 2 to that power and, unless `n` is zero, at least 2 to that
      power less one. */
  lemma {:induction false} PrintBinaryLength(n: UInt32)
    ensures var w := PrintBinaryRecursive(n);
      && w.count >= 1
      && n < Pow2(w.count)
      && (n > 0 ==> Pow2(w.count - 1) <= n)
    decreases n
  {
    var w := PrintBinaryRecursive(n);
    DivLess(n, 2);
    DivMod(n, 2);
    if n / 2 != 0 {
      var h := PrintBinaryRecursive(n / 2);
      PrintBinaryLength(n / 2);
      assert w.count == h.count + 1;
      assert Pow2(w.count) == 2 * Pow2(h.count);
      assert Pow2(w.count - 1) == 2 * Pow2(h.count - 1);
    } else {
      assert w.count == 1;
    }
  }
}
