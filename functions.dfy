/** The option-aware printers: the digit renderer `ultoa_base`, the padding
    engine `print_number_base_str`, and one printer per conversion. Each
    printer pops its argument from `args`, returns the bytes it writes with
    `_putchar` (which always succeeds here and counts 1), and is proved to write
    exactly the bytes its field function describes. */
module Printers {
  import opened CText
  import opened Numerals
  import opened FormatOptions

  // ---------------------------------------------------------------------------
  // ultoa_base

  /** Renders `value` into `buf` least significant digit first, then reverses
      the digits in place and terminates them with NUL; `len` is the `strlen`
      of the result. The guard `i < bufsize - 1` never cuts the loop short,
      since a 64-bit value has at most 64 digits. */
  method UltoaBase(value: UInt64, base: nat, uppercase: bool, buf: array<Byte>) returns (len: nat)
    requires 2 <= base <= 16
    requires buf.Length > 64
    modifies buf
    ensures len < buf.Length
    ensures buf[..len] == Numeral(value, base, uppercase)
    ensures buf[len] == '\0'
  {
    var i := 0;
    if value == 0 {
      buf[i] := '0';
      i := i + 1;
      buf[i] := '\0';
      assert buf[..i] == "0";
      return i;
    }
    i := PutDigitsBackwards(value, base, uppercase, buf);
    ReverseInPlace(buf, i);
    buf[i] := '\0';
    ReversedReversed(Digits(value, base, uppercase));
    return i;
  }

  /** The first loop of `ultoa_base`: the digits of `value`, least significant
      first, from `buf[0]` on. */
  method PutDigitsBackwards(value: UInt64, base: nat, uppercase: bool, buf: array<Byte>) returns (i: nat)
    requires 2 <= base <= 16
    requires buf.Length > 64
    modifies buf
    ensures i < buf.Length
    ensures buf[..i] == Reversed(Digits(value, base, uppercase))
  {
    var digits := if uppercase then UpperDigits else LowerDigits;
    var v: nat := value;
    i := 0;
    assert |Digits(value, base, uppercase)| <= 64 by {
      Pow2Of64();
      DigitsLength(value, base, uppercase, 64);
    }
    assert buf[..i] == [];
    while v != 0 && i < buf.Length - 1
      invariant 0 <= i < buf.Length
      invariant Digits(value, base, uppercase) == Digits(v, base, uppercase) + Reversed(buf[..i])
      decreases v
    {
      ghost var before := buf[..i];
      DivLess(v, base);
      var q: nat := v / base;
      var d := digits[v % base];
      buf[i] := d;
      assert buf[..i + 1] == before + [d];
      DigitsShift(Digits(value, base, uppercase), v, before, base, uppercase);
      i := i + 1;
      v := q;
    }
    assert v == 0 by {
      if v != 0 {
        DigitsLeadingDigit(v, base, uppercase);
      }
    }
    assert Digits(value, base, uppercase) == Reversed(buf[..i]);
    ReversedReversed(buf[..i]);
  }

  /** Moving the last digit of `v` to the written digits keeps the digits
      `all` split between the two. */
  lemma DigitsShift(all: seq<Byte>, v: nat, written: seq<Byte>, base: nat, upper: bool)
    requires 2 <= base <= 16 && v > 0
    requires all == Digits(v, base, upper) + Reversed(written)
    ensures v % base < 16
    ensures all == Digits(v / base, base, upper) + Reversed(written + [(if upper then UpperDigits else LowerDigits)[v % base]])
  {
    DigitsStep(v, base, upper);
    var d := DigitChar(v % base, upper);
    ReversedSnoc(written, d);
    assert Digits(v, base, upper) + Reversed(written) == Digits(v / base, base, upper) + ([d] + Reversed(written));
  }

  /** The second loop of `ultoa_base`: swaps `buf[j]` and `buf[n - 1 - j]`
      for every `j` below `n / 2`. */
  method ReverseInPlace(buf: array<Byte>, n: nat)
    requires n <= buf.Length
    modifies buf
    ensures buf[..n] == Reversed(old(buf[..n]))
    ensures buf[n..] == old(buf[n..])
  {
    ghost var filled := buf[..n];
    var j := 0;
    while j < n / 2
      invariant 0 <= j <= n / 2
      invariant forall k | 0 <= k < j :: buf[k] == filled[n - 1 - k] && buf[n - 1 - k] == filled[k]
      invariant forall k | j <= k < n - j :: buf[k] == filled[k]
      invariant buf[n..] == old(buf[n..])
    {
      var t := buf[j];
      buf[j] := buf[n - 1 - j];
      buf[n - 1 - j] := t;
      j := j + 1;
    }
    assert buf[..n] == Reversed(filled);
  }

  // ---------------------------------------------------------------------------
  // print_number_base_str

  /** The sign slot: '-' for a negative value, else '+' under the plus flag,
      else ' ' under the space flag, else nothing. */
  function SignSlot(negative: bool, opts: FmtOptions): seq<Byte> {
    if negative then "-" else if opts.plus then "+" else if opts.space then " " else []
  }

  /** The zeros a precision adds in front of `len` digits. */
  function PrecisionPad(len: int, opts: FmtOptions): int {
    if opts.precisionSpecified && opts.precision > len then opts.precision - len else 0
  }

  /** Precision 0 applied to the numeral of zero: no digit is printed. */
  predicate NoDigitForZero(str: seq<Byte>, opts: FmtOptions) {
    opts.precisionSpecified && opts.precision == 0 && str == "0"
  }

  /** The digits shown, preceded by the precision zeros. */
  function Magnitude(str: seq<Byte>, opts: FmtOptions): seq<Byte> {
    if NoDigitForZero(str, opts) then [] else Zeros(PrecisionPad(|str|, opts)) + str
  }

  /** The field is filled with '0' only under the zero flag and no precision. */
  predicate ZeroFill(opts: FmtOptions) {
    opts.zero && !opts.precisionSpecified
  }

  /** The bytes in front of the magnitude: the sign slot and prefix (`head`),
      preceded by `fill` spaces, or followed by `fill` zeros under zero fill,
      or alone under the dash flag. */
  function LeftPart(head: seq<Byte>, fill: int, opts: FmtOptions): seq<Byte> {
    if opts.dash then head
    else if ZeroFill(opts) then head + Zeros(fill)
    else Spaces(fill) + head
  }

  /** The bytes after the magnitude: `fill` spaces under the dash flag. */
  function RightPart(fill: int, opts: FmtOptions): seq<Byte> {
    if opts.dash then Spaces(fill) else []
  }

  /** What `print_number_base_str` writes for the digit string `str`: the sign
      slot and the prefix, then the magnitude, in a field of `width` bytes that
      is filled with trailing spaces under the dash flag, with zeros after the
      sign and prefix under zero fill, and with leading spaces otherwise. */
  function NumberField(str: seq<Byte>, opts: FmtOptions, negative: bool, prefix: seq<Byte>): seq<Byte> {
    var head := SignSlot(negative, opts) + prefix;
    var body := Magnitude(str, opts);
    var fill := opts.width - |head| - |body|;
    LeftPart(head, fill, opts) + body + RightPart(fill, opts)
  }

  /** `prefix` is NULL or a string; NULL behaves as the empty string. */
  method PrintNumberBaseStr(str: seq<Byte>, opts: FmtOptions, negative: bool, prefix: seq<Byte>)
    returns (out: seq<Byte>, total: int)
    ensures out == NumberField(str, opts, negative, prefix)
    ensures total == |out|
  {
    var len := |str|;
    var prefixLen := |prefix|;
    var signChar: Byte := if negative then '-' else if opts.plus then '+' else if opts.space then ' ' else '\0';
    var n: int;
    ghost var head := SignSlot(negative, opts) + prefix;
    SignTextSlot(negative, opts, signChar);

    // precision zeros; the zero flag is then ignored for the field
    var pad := if opts.precisionSpecified && opts.precision > len then opts.precision - len else 0;
    if opts.precisionSpecified && opts.precision == 0 && len == 1 && str[0] == '0' {
      len := 0;
      pad := 0;
    }
    ghost var body := Magnitude(str, opts);
    MagnitudeStages(str, opts, pad, len);

    var contentLen := len + pad + prefixLen + (if signChar != '\0' then 1 else 0);
    var leftPad := if opts.width > contentLen then opts.width - contentLen else 0;
    ghost var fill := opts.width - |head| - |body|;
    assert fill == opts.width - contentLen && leftPad == Max(fill, 0);
    var padCh: Byte := if opts.zero && !opts.precisionSpecified then '0' else ' ';

    out, total := PutLeft(signChar, prefix, leftPad, padCh, opts);
    LeftPartClamp(head, fill, opts);
    ghost var left := out;
    out, n := PutMagnitude(out, str, pad, len);
    total := total + n;
    ghost var shown := out;
    var right;
    right, n := PutRightPad(len + pad + prefixLen + (if signChar != '\0' then 1 else 0), opts);
    out, total := out + right, total + n;
    NumberFieldStages(str, opts, negative, prefix, fill, left, right);
  }

  /** The right padding stage: under the dash flag, as many spaces as the
      width exceeds the content length, else nothing. */
  method PutRightPad(contentLen: int, opts: FmtOptions) returns (out: seq<Byte>, written: int)
    ensures out == RightPart(opts.width - contentLen, opts)
    ensures written == |out|
  {
    out, written := [], 0;
    if opts.dash {
      var rightPad := if opts.width > contentLen then opts.width - contentLen else 0;
      RepeatClamp(' ', opts.width - contentLen);
      out, written := PutRepeat(out, ' ', rightPad);
    }
  }

  /** The field is the output of the three stages of `print_number_base_str`. */
  lemma NumberFieldStages(str: seq<Byte>, opts: FmtOptions, negative: bool, prefix: seq<Byte>,
                          fill: int, left: seq<Byte>, right: seq<Byte>)
    requires fill == opts.width - |SignSlot(negative, opts) + prefix| - |Magnitude(str, opts)|
    requires left == LeftPart(SignSlot(negative, opts) + prefix, fill, opts)
    requires right == RightPart(fill, opts)
    ensures left + Magnitude(str, opts) + right == NumberField(str, opts, negative, prefix)
  {
  }

  lemma SignTextSlot(negative: bool, opts: FmtOptions, signChar: Byte)
    requires signChar == if negative then '-' else if opts.plus then '+' else if opts.space then ' ' else '\0'
    ensures SignSlot(negative, opts) == SignText(signChar)
    ensures |SignText(signChar)| == if signChar != '\0' then 1 else 0
  {
  }

  /** The magnitude is the `pad` precision zeros and the `len` digits that
      `print_number_base_str` computes. */
  lemma MagnitudeStages(str: seq<Byte>, opts: FmtOptions, pad: int, len: int)
    requires var special := opts.precisionSpecified && opts.precision == 0 && |str| == 1 && str[0] == '0';
      && len == (if special then 0 else |str|)
      && pad == (if special then 0 else PrecisionPad(|str|, opts))
    ensures 0 <= len <= |str| && pad >= 0
    ensures Magnitude(str, opts) == Zeros(pad) + Clip(str, len)
    ensures |Magnitude(str, opts)| == pad + len
  {
    if opts.precisionSpecified && opts.precision == 0 && |str| == 1 && str[0] == '0' {
      assert str == "0";
    }
  }

  /** The sign slot as `print_number_base_str` keeps it: a byte, NUL for none. */
  function SignText(signChar: Byte): seq<Byte> {
    if signChar != '\0' then [signChar] else []
  }

  /** The left padding stage: under the dash flag only the sign and prefix;
      otherwise `leftPad` copies of `padCh` before them for a space, after
      them for a zero. */
  method PutLeft(signChar: Byte, prefix: seq<Byte>, leftPad: int, padCh: Byte, opts: FmtOptions)
    returns (out: seq<Byte>, written: int)
    requires padCh == if ZeroFill(opts) then '0' else ' '
    ensures out == LeftPart(SignText(signChar) + prefix, leftPad, opts)
    ensures written == |out|
  {
    var n;
    if !opts.dash {
      if padCh == '0' {
        out, written := PutSignAndPrefix([], signChar, prefix);
        out, n := PutRepeat(out, '0', leftPad);
        written := written + n;
        assert out == SignText(signChar) + prefix + Zeros(leftPad);
      } else {
        out, written := PutRepeat([], ' ', leftPad);
        out, n := PutSignAndPrefix(out, signChar, prefix);
        written := written + n;
        assert out == Spaces(leftPad) + SignText(signChar) + prefix;
      }
    } else {
      out, written := PutSignAndPrefix([], signChar, prefix);
      assert out == SignText(signChar) + prefix;
    }
  }

  /** A negative fill pads nothing, as zero does. */
  lemma LeftPartClamp(head: seq<Byte>, fill: int, opts: FmtOptions)
    ensures LeftPart(head, Max(fill, 0), opts) == LeftPart(head, fill, opts)
  {
    RepeatClamp(' ', fill);
    RepeatClamp('0', fill);
  }

  /** The precision zeros, then the first `len` digits. */
  method PutMagnitude(out: seq<Byte>, str: seq<Byte>, pad: int, len: int) returns (out': seq<Byte>, written: int)
    requires len <= |str|
    ensures out' == out + (Zeros(pad) + Clip(str, len))
    ensures written == |out'| - |out|
  {
    var n;
    out', written := PutRepeat(out, '0', pad);
    out', n := PutClip(out', str, len);
    written := written + n;
  }

  /** `if (sign_char) _putchar(sign_char);` then the prefix, byte by byte. */
  method PutSignAndPrefix(out: seq<Byte>, signChar: Byte, prefix: seq<Byte>) returns (out': seq<Byte>, written: int)
    ensures out' == out + SignText(signChar) + prefix
    ensures written == |out'| - |out|
  {
    out', written := out, 0;
    if signChar != '\0' {
      out', written := out' + [signChar], written + 1;
    }
    if |prefix| > 0 {
      var n;
      out', n := PutClip(out', prefix, |prefix|);
      written := written + n;
    }
  }

  /** The digits `print_number` and `print_unsigned` hand to the padding
      engine: the numeral, emptied when precision 0 meets a leading '0'. */
  function DigitText(m: nat, base: nat, upper: bool, opts: FmtOptions): seq<Byte>
    requires 2 <= base <= 16
  {
    NumeralLeadingDigit(m, base, upper);
    var s := Numeral(m, base, upper);
    if opts.precisionSpecified && opts.precision == 0 && s[0] == '0' then [] else s
  }

  // ---------------------------------------------------------------------------
  // print_char, print_percent

  /** One byte in a field of `width`: width - 1 spaces before it, or after it
      under the dash flag. */
  function CharField(c: Byte, opts: FmtOptions): seq<Byte> {
    Pad([c], opts.width - 1, opts.dash)
  }

  method PrintChar(args: seq<Arg>, opts: Option<FmtOptions>) returns (out: seq<Byte>, count: int, rest: seq<Arg>)
    requires |args| > 0 && args[0].IntArg?
    ensures rest == args[1..]
    ensures out == CharField(ToChar(args[0].i), Resolve(opts))
    ensures count == |out|
  {
    var width := 0;
    if opts.Some? {
      width := opts.value.width;
    }
    var c := ToChar(args[0].i);
    rest := args[1..];
    if width <= 1 {
      return [c], 1, rest;
    }
    var n;
    out, count := [], 0;
    if !opts.value.dash {
      out, n := PutRepeat(out, ' ', width - 1);
      count := count + n;
      out, count := out + [c], count + 1;
    } else {
      out, count := out + [c], count + 1;
      out, n := PutRepeat(out, ' ', width - 1);
      count := count + n;
    }
  }

  /** `print_percent` ignores its argument list: it consumes nothing. */
  method PrintPercent(opts: Option<FmtOptions>) returns (out: seq<Byte>, count: int)
    ensures out == CharField('%', Resolve(opts))
    ensures count == |out|
  {
    var width := 0;
    if opts.Some? {
      width := opts.value.width;
    }
    if width <= 1 {
      return "%", 1;
    }
    var n;
    out, count := [], 0;
    if opts.None? || !opts.value.dash {
      out, n := PutRepeat(out, ' ', width - 1);
      count := count + n;
      out, count := out + ['%'], count + 1;
    } else {
      out, count := out + ['%'], count + 1;
      out, n := PutRepeat(out, ' ', width - 1);
      count := count + n;
    }
  }

  // ---------------------------------------------------------------------------
  // print_string, print_reverse, print_S, print_rot13

  /** How many bytes of a `len`-byte string are shown: the precision when one
      is specified below `len` (it may be negative), else `len`. */
  function ShownLength(len: int, opts: FmtOptions): int {
    if opts.precisionSpecified && opts.precision < len then opts.precision else len
  }

  /** The shown bytes, padded with `width` minus the shown count spaces. */
  function StringField(s: seq<Byte>, opts: FmtOptions): seq<Byte> {
    var n := ShownLength(|s|, opts);
    Pad(Clip(s, n), opts.width - n, opts.dash)
  }

  /** `for (i = 0; i < fill; i++) count += _putchar(' ');` when `on`. */
  method PutFill(on: bool, fill: int) returns (out: seq<Byte>, written: int)
    ensures out == if on then Spaces(fill) else []
    ensures written == |out|
  {
    out, written := [], 0;
    if on && fill > 0 {
      out, written := PutRepeat(out, ' ', fill);
    }
  }

  method PrintString(args: seq<Arg>, opts: FmtOptions) returns (out: seq<Byte>, count: int, rest: seq<Arg>)
    requires |args| > 0 && args[0].StrArg?
    ensures rest == args[1..]
    ensures out == StringField(OrNull(args[0].s), opts)
    ensures count == |out|
  {
    var s := OrNull(args[0].s);
    rest := args[1..];
    var len := |s|;
    if opts.precisionSpecified && opts.precision < len {
      len := opts.precision;
    }
    var n;
    out, count := PutFill(!opts.dash, opts.width - len);
    ghost var lead := out;
    out, n := PutClip(out, s, len);
    count := count + n;
    var trail;
    trail, n := PutFill(opts.dash, opts.width - len);
    out, count := out + trail, count + n;
    PadPieces(lead, Clip(s, len), trail, opts.width - len, opts.dash);
  }

  /** The shown bytes back to front, padded as a string. */
  function ReverseField(s: seq<Byte>, opts: FmtOptions): seq<Byte> {
    var n := ShownLength(|s|, opts);
    Pad(Reversed(Clip(s, n)), opts.width - n, opts.dash)
  }

  method PrintReverse(args: seq<Arg>, opts: Option<FmtOptions>) returns (out: seq<Byte>, count: int, rest: seq<Arg>)
    requires |args| > 0 && args[0].StrArg?
    ensures rest == args[1..]
    ensures out == ReverseField(OrNull(args[0].s), Resolve(opts))
    ensures count == |out|
  {
    var s := OrNull(args[0].s);
    rest := args[1..];
    var len := |s|;
    var toPrint := if opts.Some? && opts.value.precisionSpecified && opts.value.precision < len then opts.value.precision else len;
    var width := if opts.Some? then opts.value.width else 0;
    var leftAligned := opts.Some? && opts.value.dash;
    ghost var o := Resolve(opts);
    assert toPrint == ShownLength(|s|, o) && width == o.width && leftAligned == o.dash;
    var n;
    out, count := PutFill(!leftAligned, width - toPrint);
    ghost var lead := out;
    var text;
    text, n := PutReversed(s, toPrint);
    out, count := out + text, count + n;
    var trail;
    trail, n := PutFill(leftAligned, width - toPrint);
    out, count := out + trail, count + n;
    PadPieces(lead, Reversed(Clip(s, toPrint)), trail, width - toPrint, leftAligned);
  }

  /** `for (i = n - 1; i >= 0; i--) count += _putchar(s[i]);` */
  method PutReversed(s: seq<Byte>, n: int) returns (text: seq<Byte>, written: int)
    requires n <= |s|
    ensures text == Reversed(Clip(s, n))
    ensures written == |text|
  {
    text, written := [], 0;
    if n <= 0 {
      return;
    }
    var i := n - 1;
    while i >= 0
      invariant -1 <= i < n
      invariant |text| == n - 1 - i
      invariant forall k | 0 <= k < |text| :: text[k] == s[n - 1 - k]
      invariant written == |text|
      decreases i
    {
      text, written := text + [s[i]], written + 1;
      i := i - 1;
    }
    assert text == Reversed(s[..n]);
  }


  /** `isprint` in the C locale: the ASCII bytes from space to tilde. */
  predicate IsPrint(c: Byte) {
    ' ' <= c <= '~'
  }

  /** A printable byte stands for itself; any other becomes `\xHH`, high
      nibble first, in upper-case hexadecimal. */
  function Escape(c: Byte): seq<Byte> {
    if IsPrint(c) then [c] else ['\\', 'x', UpperDigits[c as int / 16], UpperDigits[c as int % 16]]
  }

  function Expand(s: seq<Byte>): seq<Byte> {
    if s == [] then [] else Expand(s[..|s| - 1]) + Escape(s[|s| - 1])
  }

  lemma ExpandSnoc(s: seq<Byte>, i: nat)
    requires i < |s|
    ensures Expand(s[..i + 1]) == Expand(s[..i]) + Escape(s[i])
  {
    assert s[..i + 1][..i] == s[..i];
  }

  /** The expansion of the shown bytes, padded to `width` by its own length:
      precision counts source bytes, the padding counts expanded bytes. */
  function SField(s: seq<Byte>, opts: FmtOptions): seq<Byte> {
    var n := ShownLength(|s|, opts);
    var e := Expand(Clip(s, n));
    Pad(e, opts.width - |e|, opts.dash)
  }

  method PrintS(args: seq<Arg>, opts: Option<FmtOptions>) returns (out: seq<Byte>, count: int, rest: seq<Arg>)
    requires |args| > 0 && args[0].StrArg?
    ensures rest == args[1..]
    ensures out == SField(OrNull(args[0].s), Resolve(opts))
    ensures count == |out|
  {
    var s := OrNull(args[0].s);
    rest := args[1..];
    var slen := |s|;
    var toPrint := if opts.Some? && opts.value.precisionSpecified && opts.value.precision < slen then opts.value.precision else slen;
    var width := if opts.Some? then opts.value.width else 0;
    var leftAligned := opts.Some? && opts.value.dash;
    var expandedLen := ExpandedLength(s, toPrint);
    ghost var o := Resolve(opts);
    assert toPrint == ShownLength(|s|, o) && width == o.width && leftAligned == o.dash;
    var n;
    out, count := PutFill(!leftAligned, width - expandedLen);
    ghost var lead := out;
    var text;
    text, n := PutExpanded(s, toPrint);
    out, count := out + text, count + n;
    var trail;
    trail, n := PutFill(leftAligned, width - expandedLen);
    out, count := out + trail, count + n;
    PadPieces(lead, Expand(Clip(s, toPrint)), trail, width - expandedLen, leftAligned);
  }

  /** The first loop of `print_S`: 1 for each printable shown byte, 4 for any
      other. */
  method ExpandedLength(s: seq<Byte>, n: int) returns (len: int)
    requires n <= |s|
    ensures len == |Expand(Clip(s, n))|
  {
    len := 0;
    var i := 0;
    while i < n
      invariant 0 <= i && (n >= 0 ==> i <= n) && (n < 0 ==> i == 0)
      invariant len == |Expand(s[..i])|
    {
      assert s[..i + 1][..i] == s[..i];
      if IsPrint(s[i]) {
        len := len + 1;
      } else {
        len := len + 4;
      }
      i := i + 1;
    }
    assert s[..i] == Clip(s, n);
  }

  /** The second loop of `print_S`: each shown byte, or its `\xHH` escape. */
  method PutExpanded(s: seq<Byte>, n: int) returns (text: seq<Byte>, written: int)
    requires n <= |s|
    ensures text == Expand(Clip(s, n))
    ensures written == |text|
  {
    text, written := [], 0;
    var i := 0;
    while i < n
      invariant 0 <= i && (n >= 0 ==> i <= n) && (n < 0 ==> i == 0)
      invariant text == Expand(s[..i])
      invariant written == |text|
    {
      ExpandSnoc(s, i);
      var k;
      text, k := PutEscape(text, s[i]);
      written := written + k;
      i := i + 1;
    }
    assert s[..i] == Clip(s, n);
  }


  /** One byte of `print_S`: itself when printable, else a backslash, 'x'
      and its two upper-case hexadecimal digits. */
  method PutEscape(out: seq<Byte>, ch: Byte) returns (out': seq<Byte>, written: int)
    ensures out' == out + Escape(ch)
    ensures written == |out'| - |out|
  {
    if IsPrint(ch) {
      out', written := out + [ch], 1;
    } else {
      out', written := out + ['\\'], 1;
      out', written := out' + ['x'], written + 1;
      out', written := out' + [UpperDigits[ch as int / 16]], written + 1;
      out', written := out' + [UpperDigits[ch as int % 16]], written + 1;
      assert out' == out + Escape(ch);
    }
  }


  /** Letters move 13 places round their own case's alphabet; every other
      byte is unchanged. */
  function Rot13(c: Byte): Byte {
    if 'a' <= c <= 'z' then ((c as int - 'a' as int + 13) % 26 + 'a' as int) as char
    else if 'A' <= c <= 'Z' then ((c as int - 'A' as int + 13) % 26 + 'A' as int) as char
    else c
  }

  function Rot13Text(s: seq<Byte>): (r: seq<Byte>)
    ensures |r| == |s|
  {
    if s == [] then [] else Rot13Text(s[..|s| - 1]) + [Rot13(s[|s| - 1])]
  }

  function Rot13Field(s: seq<Byte>, opts: FmtOptions): seq<Byte> {
    var n := ShownLength(|s|, opts);
    Pad(Rot13Text(Clip(s, n)), opts.width - n, opts.dash)
  }

  method PrintRot13(args: seq<Arg>, opts: Option<FmtOptions>) returns (out: seq<Byte>, count: int, rest: seq<Arg>)
    requires |args| > 0 && args[0].StrArg?
    ensures rest == args[1..]
    ensures out == Rot13Field(OrNull(args[0].s), Resolve(opts))
    ensures count == |out|
  {
    var s := OrNull(args[0].s);
    rest := args[1..];
    var len := |s|;
    var toPrint := if opts.Some? && opts.value.precisionSpecified && opts.value.precision < len then opts.value.precision else len;
    var width := if opts.Some? then opts.value.width else 0;
    var leftAligned := opts.Some? && opts.value.dash;
    ghost var o := Resolve(opts);
    assert toPrint == ShownLength(|s|, o) && width == o.width && leftAligned == o.dash;
    var n;
    out, count := PutFill(!leftAligned, width - toPrint);
    ghost var lead := out;
    var text;
    text, n := PutRot13(s, toPrint);
    out, count := out + text, count + n;
    var trail;
    trail, n := PutFill(leftAligned, width - toPrint);
    out, count := out + trail, count + n;
    PadPieces(lead, Rot13Text(Clip(s, toPrint)), trail, width - toPrint, leftAligned);
  }

  /** The loop of `print_rot13`: each shown byte, letters rotated. */
  method PutRot13(s: seq<Byte>, n: int) returns (text: seq<Byte>, written: int)
    requires n <= |s|
    ensures text == Rot13Text(Clip(s, n))
    ensures written == |text|
  {
    text, written := [], 0;
    var i := 0;
    while i < n
      invariant 0 <= i && (n >= 0 ==> i <= n) && (n < 0 ==> i == 0)
      invariant text == Rot13Text(s[..i])
      invariant written == |text|
    {
      assert s[..i + 1][..i] == s[..i];
      var c := s[i];
      var o := c;
      if 'a' <= c <= 'z' {
        o := ((c as int - 'a' as int + 13) % 26 + 'a' as int) as char;
      } else if 'A' <= c <= 'Z' {
        o := ((c as int - 'A' as int + 13) % 26 + 'A' as int) as char;
      }
      text, written := text + [o], written + 1;
      i := i + 1;
    }
    assert s[..i] == Clip(s, n);
  }


  // ---------------------------------------------------------------------------
  // print_number, print_unsigned, print_pointer

  /** `va_arg` reads a `long` under 'l' and an `int` otherwise. */
  predicate SignedArg(a: Arg, length: LengthModifier) {
    if length == LongLength then a.LongArg? else a.IntArg?
  }

  /** The `(short)` conversion: the low 16 bits, read as two's complement. */
  function ToShort(n: int): int {
    var m := n % 0x1_0000;
    if m < 0x8000 then m else m - 0x1_0000
  }

  function SignedValue(a: Arg, length: LengthModifier): int
    requires SignedArg(a, length)
  {
    match length
    case LongLength => a.l
    case ShortLength => ToShort(a.i)
    case NoLength => a.i
  }

  /** A signed decimal conversion: the magnitude's digits and a '-' slot for
      a negative value (the magnitude of LONG_MIN is taken as 2^63). */
  function IntegerField(val: int, opts: FmtOptions): seq<Byte> {
    NumberField(DigitText(Abs(val), 10, false, opts), opts, val < 0, [])
  }

  method PrintNumber(args: seq<Arg>, opts: FmtOptions) returns (out: seq<Byte>, count: int, rest: seq<Arg>)
    requires |args| > 0 && SignedArg(args[0], opts.length)
    ensures rest == args[1..]
    ensures out == IntegerField(SignedValue(args[0], opts.length), opts)
    ensures count == |out|
  {
    var val: int;
    if opts.length == LongLength {
      val := args[0].l;
    } else if opts.length == ShortLength {
      val := ToShort(args[0].i);
    } else {
      val := args[0].i;
    }
    ghost var original := val;
    rest := args[1..];
    var negative := false;
    if val < 0 {
      negative := true;
      val := -val;
    }
    assert original == SignedValue(args[0], opts.length);
    assert val == Abs(original) && negative == (original < 0);
    var digits := RenderDigits(val, 10, false, opts);
    out, count := PrintNumberBaseStr(digits, opts, negative, []);
    assert out == IntegerField(original, opts);
  }

  /** The digits `print_number` and `print_unsigned` render into their
      70-byte buffer, the first digit cleared for precision 0 on a zero. */
  method RenderDigits(m: UInt64, base: nat, uppercase: bool, opts: FmtOptions) returns (digits: seq<Byte>)
    requires 2 <= base <= 16
    ensures digits == DigitText(m, base, uppercase, opts)
  {
    var buf := new Byte[70];
    var len := UltoaBase(m, base, uppercase, buf);
    NumeralLeadingDigit(m, base, uppercase);
    if opts.precisionSpecified && opts.precision == 0 && buf[0] == '0' {
      buf[0] := '\0';
      len := 0;
    }
    digits := buf[..len];
  }

  /** `va_arg` reads an `unsigned long` under 'l' and an `unsigned int` otherwise. */
  predicate UnsignedArg(a: Arg, length: LengthModifier) {
    if length == LongLength then a.ULongArg? else a.UIntArg?
  }

  function UnsignedValue(a: Arg, length: LengthModifier): nat
    requires UnsignedArg(a, length)
  {
    match length
    case LongLength => a.ul
    case ShortLength => a.u % 0x1_0000
    case NoLength => a.u
  }

  /** The alternate-form prefix: only under '#' and for a non-zero value,
      "0" in base 8 and "0x" or "0X" in base 16. */
  function AltPrefix(val: nat, base: nat, upper: bool, opts: FmtOptions): seq<Byte> {
    if opts.hash && val != 0 then
      (if base == 8 then "0" else if base == 16 then (if upper then "0X" else "0x") else [])
    else []
  }

  function UnsignedField(val: nat, opts: FmtOptions, base: nat, upper: bool): seq<Byte>
    requires 2 <= base <= 16
  {
    NumberField(DigitText(val, base, upper, opts), opts, false, AltPrefix(val, base, upper, opts))
  }

  method PrintUnsigned(args: seq<Arg>, opts: FmtOptions, base: nat, uppercase: bool)
    returns (out: seq<Byte>, count: int, rest: seq<Arg>)
    requires 2 <= base <= 16
    requires |args| > 0 && UnsignedArg(args[0], opts.length)
    ensures rest == args[1..]
    ensures out == UnsignedField(UnsignedValue(args[0], opts.length), opts, base, uppercase)
    ensures count == |out|
  {
    var val: int;
    if opts.length == LongLength {
      val := args[0].ul;
    } else if opts.length == ShortLength {
      val := args[0].u % 0x1_0000;
    } else {
      val := args[0].u;
    }
    rest := args[1..];
    var prefix: CString := [];
    if opts.hash && val != 0 {
      if base == 8 {
        prefix := "0";
      } else if base == 16 {
        prefix := if uppercase then "0X" else "0x";
      }
    }
    var digits := RenderDigits(val, base, uppercase, opts);
    out, count := PrintNumberBaseStr(digits, opts, false, prefix);
  }

  const NilText: CString := "(nil)"

  /** NULL prints "(nil)" in a field of `width`; any other pointer prints as
      "0x" and its lower-case hexadecimal numeral through the padding engine. */
  function PointerField(p: Option<Address>, opts: Option<FmtOptions>): seq<Byte>
    requires p.Some? ==> opts.Some?
  {
    if p.None? then Justify(NilText, Resolve(opts).width, Resolve(opts).dash)
    else NumberField(Numeral(p.value, 16, false), opts.value, false, "0x")
  }

  /** A non-null pointer reaches the padding engine, which reads `opts`
      unconditionally, so options must then be present. */
  method PrintPointer(args: seq<Arg>, opts: Option<FmtOptions>) returns (out: seq<Byte>, count: int, rest: seq<Arg>)
    requires |args| > 0 && args[0].PtrArg?
    requires args[0].p.Some? ==> opts.Some?
    ensures rest == args[1..]
    ensures out == PointerField(args[0].p, opts)
    ensures count == |out|
  {
    var p := args[0].p;
    rest := args[1..];
    var n;
    if p.None? {
      var nil := NilText;
      var len := |nil|;
      var width := if opts.Some? then opts.value.width else 0;
      out, count := [], 0;
      if opts.None? || !opts.value.dash {
        out, n := PutRepeat(out, ' ', width - len);
        count := count + n;
      }
      out, n := PutClip(out, nil, len);
      count := count + n;
      if opts.Some? && opts.value.dash {
        out, n := PutRepeat(out, ' ', width - len);
        count := count + n;
      }
      return;
    }
    var buf := new Byte[70];
    var len := UltoaBase(p.value, 16, false, buf);
    NumeralNulFree(p.value, 16, false);
    out, count := PrintNumberBaseStr(buf[..len], opts.value, false, "0x");
  }
}
