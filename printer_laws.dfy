/** What the option-aware printers promise, stated over the field functions
    their methods are proved to write: field lengths, the order of sign,
    prefix, fill and digits, which flag wins, and that every rendered number
    and escape reads back to what was printed. */
module PrinterLaws {
  import opened CText
  import opened Numerals
  import opened FormatOptions
  import opened Printers

  // ---------------------------------------------------------------------------
  // print_number_base_str

  /** The magnitude holds `max(len, precision)` bytes, none for precision 0
      applied to "0", and the field holds `max(width, content_len)` bytes,
      where `content_len` counts the sign slot, the prefix and the magnitude. */
  lemma NumberFieldLength(str: seq<Byte>, opts: FmtOptions, negative: bool, prefix: seq<Byte>)
    ensures |Magnitude(str, opts)| ==
      if NoDigitForZero(str, opts) then 0
      else if opts.precisionSpecified then Max(|str|, opts.precision)
      else |str|
    ensures |NumberField(str, opts, negative, prefix)| ==
      Max(opts.width, |SignSlot(negative, opts)| + |prefix| + |Magnitude(str, opts)|)
  {
  }

  /** The field depends on the options only through the sign slot, the
      width, the alignment, the fill and the precision. */
  lemma NumberFieldCongruence(str: seq<Byte>, o1: FmtOptions, o2: FmtOptions, negative: bool, prefix: seq<Byte>)
    requires SignSlot(negative, o1) == SignSlot(negative, o2)
    requires o1.width == o2.width && o1.dash == o2.dash && (o1.dash || ZeroFill(o1) == ZeroFill(o2))
    requires o1.precisionSpecified == o2.precisionSpecified && o1.precision == o2.precision
    ensures NumberField(str, o1, negative, prefix) == NumberField(str, o2, negative, prefix)
  {
    assert Magnitude(str, o1) == Magnitude(str, o2);
    var head := SignSlot(negative, o1) + prefix;
    var fill := o1.width - |head| - |Magnitude(str, o1)|;
    assert LeftPart(head, fill, o1) == LeftPart(head, fill, o2);
    assert RightPart(fill, o1) == RightPart(fill, o2);
  }

  /** The three layouts: under the dash flag the sign slot, the prefix and the
      magnitude come first and all the fill is trailing spaces; under zero
      fill the zeros come between the prefix and the magnitude; otherwise
      leading spaces come before the sign slot. */
  lemma NumberFieldOrder(str: seq<Byte>, opts: FmtOptions, negative: bool, prefix: seq<Byte>)
    ensures var head := SignSlot(negative, opts) + prefix;
      var body := Magnitude(str, opts);
      var fill := opts.width - |head| - |body|;
      var f := NumberField(str, opts, negative, prefix);
      && (opts.dash ==> f == head + body + Spaces(fill))
      && (!opts.dash && ZeroFill(opts) ==> f == head + Zeros(fill) + body)
      && (!opts.dash && !ZeroFill(opts) ==> f == Spaces(fill) + head + body)
  {
    var head := SignSlot(negative, opts) + prefix;
    var body := Magnitude(str, opts);
    var fill := opts.width - |head| - |body|;
    if !opts.dash {
      assert body + [] == body;
    }
  }

  /** The sign slot is '-' exactly for a negative value; `plus` beats
      `space`, and neither changes the field of a negative value. */
  lemma SignRules(str: seq<Byte>, opts: FmtOptions, negative: bool, prefix: seq<Byte>)
    ensures SignSlot(negative, opts) == "-" <==> negative
    ensures opts.plus ==>
      NumberField(str, opts, negative, prefix) == NumberField(str, opts.(space := !opts.space), negative, prefix)
    ensures negative ==>
      NumberField(str, opts, negative, prefix) == NumberField(str, opts.(plus := false, space := false), negative, prefix)
    ensures !negative && (opts.plus || opts.space) ==> |SignSlot(negative, opts)| == 1 && SignSlot(negative, opts) != "-"
  {
    if opts.plus {
      NumberFieldCongruence(str, opts, opts.(space := !opts.space), negative, prefix);
    }
    if negative {
      NumberFieldCongruence(str, opts, opts.(plus := false, space := false), negative, prefix);
    }
  }

  /** The dash flag overrides the zero flag, and so does a precision: the
      zero flag then changes nothing. */
  lemma ZeroFlagOverridden(str: seq<Byte>, opts: FmtOptions, negative: bool, prefix: seq<Byte>)
    ensures opts.dash || opts.precisionSpecified ==>
      NumberField(str, opts, negative, prefix) == NumberField(str, opts.(zero := false), negative, prefix)
    ensures opts.dash ==>
      NumberField(str, opts, negative, prefix)[..|SignSlot(negative, opts) + prefix|] == SignSlot(negative, opts) + prefix
  {
    if opts.dash || opts.precisionSpecified {
      NumberFieldCongruence(str, opts, opts.(zero := false), negative, prefix);
    }
  }

  /** The precision zeros come first in the magnitude and do not change the
      value the digits read back as. */
  lemma MagnitudeReadsBack(str: seq<Byte>, opts: FmtOptions, base: nat)
    requires !NoDigitForZero(str, opts)
    ensures Magnitude(str, opts) == Zeros(PrecisionPad(|str|, opts)) + str
    ensures FromDigits(Magnitude(str, opts), base) == FromDigits(str, base)
  {
    FromDigitsLeadingZeros(PrecisionPad(|str|, opts), str, base);
  }

  // ---------------------------------------------------------------------------
  // print_number, print_unsigned, print_pointer

  /** The digits a signed conversion shows are decimal and read back as
      the magnitude, except that precision 0 prints no digit for 0, and the
      field is then only the sign slot in a field of `width`. */
  lemma IntegerFieldDigits(val: int, opts: FmtOptions)
    ensures var m := Magnitude(DigitText(Abs(val), 10, false, opts), opts);
      && (forall k | 0 <= k < |m| :: '0' <= m[k] <= '9')
      && (!(opts.precisionSpecified && opts.precision == 0 && val == 0) ==>
            |m| >= 1 && FromDigits(m, 10) == Abs(val))
      && (opts.precisionSpecified && opts.precision == 0 && val == 0 ==>
            m == [] && IntegerField(val, opts) == Justify(SignSlot(false, opts), opts.width, opts.dash))
  {
    var v := Abs(val);
    var s := DigitText(v, 10, false, opts);
    NumeralLeadingDigit(v, 10, false);
    NumeralCase(v, 10, false);
    if opts.precisionSpecified && opts.precision == 0 && val == 0 {
      assert s == [];
      assert Magnitude(s, opts) == [];
      var head := SignSlot(false, opts) + [];
      assert head == SignSlot(false, opts);
      NumberFieldOrder(s, opts, false, []);
    } else {
      assert s == Numeral(v, 10, false);
      assert s != "0" || !opts.precisionSpecified || opts.precision != 0;
      MagnitudeReadsBack(s, opts, 10);
      NumeralRoundTrip(v, 10, false);
      DecimalDigits(Magnitude(s, opts), PrecisionPad(|s|, opts), s);
    }
  }

  lemma DecimalDigits(m: seq<Byte>, pad: int, s: seq<Byte>)
    requires m == Zeros(pad) + s
    requires forall k | 0 <= k < |s| :: IsDigit(s[k], 10, false)
    ensures forall k | 0 <= k < |m| :: '0' <= m[k] <= '9'
  {
    forall k | 0 <= k < |m|
      ensures '0' <= m[k] <= '9'
    {
      if k >= |Zeros(pad)| {
        var j := k - |Zeros(pad)|;
        assert m[k] == s[j];
        DigitCharValue(DigitValue(s[j]), false);
      }
    }
  }

  /** The `(short)` conversion lands in the 16-bit range, agrees with its
      argument modulo 2^16, and keeps every value already in range. */
  lemma ToShortRange(n: int)
    ensures -0x8000 <= ToShort(n) < 0x8000
    ensures (n - ToShort(n)) % 0x1_0000 == 0
    ensures -0x8000 <= n < 0x8000 ==> ToShort(n) == n
  {
    var m := n % 0x1_0000;
    assert n == n / 0x1_0000 * 0x1_0000 + m;
    if -0x8000 <= n < 0 {
      assert n / 0x1_0000 == -1;
    } else if 0 <= n < 0x8000 {
      assert n / 0x1_0000 == 0;
    }
  }

  /** The digits an unsigned conversion shows are digits of `base` in the
      requested case that read back as the value (none for 0 at precision
      0); the `#` prefix is never written for 0. */
  lemma UnsignedFieldDigits(val: nat, opts: FmtOptions, base: nat, upper: bool)
    requires 2 <= base <= 16
    ensures var m := Magnitude(DigitText(val, base, upper, opts), opts);
      && (!(opts.precisionSpecified && opts.precision == 0 && val == 0) ==>
            |m| >= 1 && FromDigits(m, base) == val)
      && (opts.precisionSpecified && opts.precision == 0 && val == 0 ==> m == [])
    ensures val == 0 ==> UnsignedField(val, opts, base, upper) == UnsignedField(val, opts.(hash := false), base, upper)
    ensures opts.hash && val != 0 && base == 16 ==> AltPrefix(val, base, upper, opts) == (if upper then "0X" else "0x")
    ensures opts.hash && val != 0 && base == 8 ==> AltPrefix(val, base, upper, opts) == "0"
  {
    var s := DigitText(val, base, upper, opts);
    NumeralLeadingDigit(val, base, upper);
    if opts.precisionSpecified && opts.precision == 0 && val == 0 {
      assert s == [];
    } else {
      assert s == Numeral(val, base, upper);
      MagnitudeReadsBack(s, opts, base);
      NumeralRoundTrip(val, base, upper);
    }
    if val == 0 {
      var o2 := opts.(hash := false);
      assert DigitText(val, base, upper, o2) == s;
      assert AltPrefix(val, base, upper, opts) == [] == AltPrefix(val, base, upper, o2);
      NumberFieldCongruence(s, opts, o2, false, []);
    }
  }

  /** NULL prints "(nil)" in a field of `max(width, 5)` bytes; any other
      pointer prints its sign slot and "0x", then lower-case hexadecimal
      digits that read back as the address, with the field's fill spaces
      before them all, trailing spaces after them, or zeros between "0x" and
      the digits. */
  lemma PointerFieldShape(p: Option<Address>, opts: Option<FmtOptions>)
    requires p.Some? ==> opts.Some?
    ensures p.None? ==> |PointerField(p, opts)| == Max(Resolve(opts).width, 5)
    ensures p.None? && Resolve(opts).dash ==> PointerField(p, opts)[..5] == NilText
    ensures p.None? && !Resolve(opts).dash ==> PointerField(p, opts)[|PointerField(p, opts)| - 5..] == NilText
    ensures p.Some? ==> var o := opts.value;
      var m := Magnitude(Numeral(p.value, 16, false), o);
      var head := SignSlot(false, o) + "0x";
      var fill := o.width - |head| - |m|;
      && FromDigits(m, 16) == p.value
      && (forall k | 0 <= k < |m| :: '0' <= m[k] <= '9' || 'a' <= m[k] <= 'f')
      && (o.dash ==> PointerField(p, opts) == head + m + Spaces(fill))
      && (!o.dash && ZeroFill(o) ==> PointerField(p, opts) == head + Zeros(fill) + m)
      && (!o.dash && !ZeroFill(o) ==> PointerField(p, opts) == Spaces(fill) + head + m)
  {
    if p.None? {
      PadShape(NilText, Resolve(opts).width - 5, Resolve(opts).dash);
    } else {
      var o := opts.value;
      var s := Numeral(p.value, 16, false);
      NumeralLeadingDigit(p.value, 16, false);
      NumeralCase(p.value, 16, false);
      assert !NoDigitForZero(s, o);
      MagnitudeReadsBack(s, o, 16);
      NumeralRoundTrip(p.value, 16, false);
      HexDigits(Magnitude(s, o), s, o);
      NumberFieldOrder(s, o, false, "0x");
    }
  }

  lemma HexDigits(m: seq<Byte>, s: seq<Byte>, o: FmtOptions)
    requires m == Magnitude(s, o)
    requires forall k | 0 <= k < |s| :: IsDigit(s[k], 16, false)
    ensures forall k | 0 <= k < |m| :: '0' <= m[k] <= '9' || 'a' <= m[k] <= 'f'
  {
    if !NoDigitForZero(s, o) {
      var z := Zeros(PrecisionPad(|s|, o));
      forall k | 0 <= k < |m|
        ensures '0' <= m[k] <= '9' || 'a' <= m[k] <= 'f'
      {
        if k >= |z| {
          assert m[k] == s[k - |z|];
          DigitCharValue(DigitValue(s[k - |z|]), false);
        }
      }
    }
  }

  // ---------------------------------------------------------------------------
  // print_char, print_percent

  /** One byte in a field of `max(width, 1)` bytes: first under the dash
      flag, last otherwise, every other byte a space. */
  lemma CharFieldShape(c: Byte, opts: FmtOptions)
    ensures var f := CharField(c, opts);
      && |f| == Max(opts.width, 1)
      && (opts.dash ==> f[0] == c && forall k | 1 <= k < |f| :: f[k] == ' ')
      && (!opts.dash ==> f[|f| - 1] == c && forall k | 0 <= k < |f| - 1 :: f[k] == ' ')
  {
    PadShape([c], opts.width - 1, opts.dash);
    var f := CharField(c, opts);
    if !opts.dash {
      assert f[|f| - 1..][0] == c;
    }
  }

  // ---------------------------------------------------------------------------
  // print_string, print_reverse, print_S, print_rot13

  /** The shown count is the precision when one below the length is given,
      and the length otherwise. */
  lemma ShownLengthRule(s: seq<Byte>, opts: FmtOptions)
    ensures ShownLength(|s|, opts) <= |s|
    ensures opts.precisionSpecified && opts.precision < |s| ==> ShownLength(|s|, opts) == opts.precision
    ensures !(opts.precisionSpecified && opts.precision < |s|) ==> ShownLength(|s|, opts) == |s|
  {
  }

  /** A string field shows the first bytes of the string in order, as many as
      the precision allows, in a field of `max(width, shown)` bytes. */
  lemma StringFieldShape(s: seq<Byte>, opts: FmtOptions)
    ensures var n := ShownLength(|s|, opts);
      var f := StringField(s, opts);
      && |f| == Max(n, 0) + Max(opts.width - n, 0)
      && (n >= 0 ==> |f| == Max(opts.width, n))
      && (n >= 0 && opts.dash ==> f[..n] == s[..n])
      && (n >= 0 && !opts.dash ==> f[|f| - n..] == s[..n])
  {
    var n := ShownLength(|s|, opts);
    PadShape(Clip(s, n), opts.width - n, opts.dash);
  }

  /** The reversed text holds the shown bytes last to first, and reversing it
      again gives them back. */
  lemma ReverseFieldShape(s: seq<Byte>, opts: FmtOptions)
    ensures var n := ShownLength(|s|, opts);
      var t := Reversed(Clip(s, n));
      && (forall k | 0 <= k < |t| :: t[k] == s[n - 1 - k])
      && Reversed(t) == Clip(s, n)
      && |ReverseField(s, opts)| == |StringField(s, opts)|
  {
    var n := ShownLength(|s|, opts);
    var c := Clip(s, n);
    var t := Reversed(c);
    forall k | 0 <= k < |t|
      ensures t[k] == s[n - 1 - k]
    {
      assert c[n - 1 - k] == s[n - 1 - k];
    }
    ReversedReversed(c);
    PadShape(t, opts.width - n, opts.dash);
    PadShape(c, opts.width - n, opts.dash);
  }

  /** A lower-case letter stays lower case, an upper-case one upper case, both
      change, and every other byte is unchanged. */
  lemma Rot13Classes(c: Byte)
    ensures 'a' <= c <= 'z' ==> 'a' <= Rot13(c) <= 'z' && Rot13(c) != c
    ensures 'A' <= c <= 'Z' ==> 'A' <= Rot13(c) <= 'Z' && Rot13(c) != c
    ensures !('a' <= c <= 'z') && !('A' <= c <= 'Z') ==> Rot13(c) == c
  {
  }

  /** Rotating twice gives the byte back. */
  lemma Rot13Involutive(c: Byte)
    ensures Rot13(Rot13(c)) == c
  {
    if 'a' <= c <= 'z' {
      Rot13Offset(c as int - 'a' as int);
    } else if 'A' <= c <= 'Z' {
      Rot13Offset(c as int - 'A' as int);
    }
  }

  lemma Rot13Offset(k: int)
    requires 0 <= k < 26
    ensures 0 <= (k + 13) % 26 < 26
    ensures ((k + 13) % 26 + 13) % 26 == k
  {
    if k < 13 {
      assert (k + 13) % 26 == k + 13;
      assert (k + 26) % 26 == k;
    } else {
      assert (k + 13) % 26 == k - 13;
    }
  }

  /** The rotated text maps byte by byte. */
  lemma {:induction false} Rot13TextAt(s: seq<Byte>, k: nat)
    requires k < |s|
    ensures Rot13Text(s)[k] == Rot13(s[k])
    decreases |s|
  {
    if k < |s| - 1 {
      Rot13TextAt(s[..|s| - 1], k);
    }
  }

  /** Rotating a text twice gives it back. */
  lemma Rot13TextInvolutive(s: seq<Byte>)
    ensures Rot13Text(Rot13Text(s)) == s
  {
    var r := Rot13Text(Rot13Text(s));
    forall k | 0 <= k < |s|
      ensures r[k] == s[k]
    {
      Rot13TextAt(Rot13Text(s), k);
      Rot13TextAt(s, k);
      Rot13Involutive(s[k]);
    }
  }

  /** The rot13 field has the string field's shape, byte for byte rotated. */
  lemma Rot13FieldShape(s: seq<Byte>, opts: FmtOptions)
    ensures |Rot13Field(s, opts)| == |StringField(s, opts)|
    ensures forall k | 0 <= k < |Rot13Field(s, opts)| :: Rot13Field(s, opts)[k] == Rot13(StringField(s, opts)[k])
  {
    var n := ShownLength(|s|, opts);
    var t := Clip(s, n);
    var r := Rot13Field(s, opts);
    var f := StringField(s, opts);
    PadShape(t, opts.width - n, opts.dash);
    PadShape(Rot13Text(t), opts.width - n, opts.dash);
    forall k | 0 <= k < |r|
      ensures r[k] == Rot13(f[k])
    {
      var lead := if opts.dash then 0 else Max(opts.width - n, 0);
      if lead <= k < lead + |t| {
        Rot13TextAt(t, k - lead);
      }
    }
  }

  /** The number of bytes `print_S` escapes. */
  function Unprintable(s: seq<Byte>): nat {
    if s == [] then 0 else Unprintable(s[..|s| - 1]) + (if IsPrint(s[|s| - 1]) then 0 else 1)
  }

  /** An escape reads back as the byte it stands for: the byte itself, or a
      backslash, 'x' and two upper-case hexadecimal digits of its value. */
  lemma EscapeReadsBack(c: Byte)
    ensures IsPrint(c) ==> Escape(c) == [c]
    ensures !IsPrint(c) ==> var e := Escape(c);
      && |e| == 4 && e[0] == '\\' && e[1] == 'x'
      && IsDigit(e[2], 16, true) && IsDigit(e[3], 16, true)
      && DigitValue(e[2]) * 16 + DigitValue(e[3]) == c as int
  {
    if !IsPrint(c) {
      var hi, lo := c as int / 16, c as int % 16;
      assert UpperDigits[hi] == DigitChar(hi, true) && UpperDigits[lo] == DigitChar(lo, true);
      DigitCharValue(hi, true);
      DigitCharValue(lo, true);
      DivMod(c as int, 16);
    }
  }

  /** Each escaped byte adds three bytes to the expansion, and a text of
      printable bytes expands to itself. */
  lemma {:induction false} ExpandLength(s: seq<Byte>)
    ensures |Expand(s)| == |s| + 3 * Unprintable(s)
    ensures Unprintable(s) == 0 ==> Expand(s) == s
    decreases |s|
  {
    if s != [] {
      var init := s[..|s| - 1];
      ExpandLength(init);
      assert s == init + [s[|s| - 1]];
    }
  }

  /** `print_S` pads by the expanded length, to `max(width, expanded)` bytes,
      while the precision counts source bytes. */
  lemma SFieldShape(s: seq<Byte>, opts: FmtOptions)
    ensures var n := ShownLength(|s|, opts);
      var e := Expand(Clip(s, n));
      && |SField(s, opts)| == Max(opts.width, |e|)
      && |e| == Max(n, 0) + 3 * Unprintable(Clip(s, n))
      && (opts.dash ==> SField(s, opts)[..|e|] == e)
      && (!opts.dash ==> SField(s, opts)[|SField(s, opts)| - |e|..] == e)
  {
    var n := ShownLength(|s|, opts);
    var e := Expand(Clip(s, n));
    ExpandLength(Clip(s, n));
    PadShape(e, opts.width - |e|, opts.dash);
  }
}
