/** Shared vocabulary of the model: C bytes, integers and strings, the argument
    list of a variadic call, and the byte-output steps every printer is built
    from. Each `_putchar`/`write` of one byte is modelled as appending that byte
    to the output sequence a printer returns, and as adding 1 to its count. */
module CText {

  /** A C `char`; the model writes ASCII text as character literals. */
  type Byte = c: char | c as int < 0x100

  /** The C integer types of an LP64 platform (`int` 32 bits, `long` 64 bits). */
  type Int32 = n: int | -0x8000_0000 <= n < 0x8000_0000
  type UInt32 = n: int | 0 <= n < 0x1_0000_0000
  type Int64 = n: int | -0x8000_0000_0000_0000 <= n < 0x8000_0000_0000_0000
  type UInt64 = n: int | 0 <= n < 0x1_0000_0000_0000_0000

  /** The `uintptr_t` value of a non-null pointer: the null pointer is the
      address 0, so a present address is never 0. */
  type Address = n: int | 0 < n < 0x1_0000_0000_0000_0000 witness 1

  predicate NulFree(s: seq<Byte>) {
    forall k | 0 <= k < |s| :: s[k] != '\0'
  }

  /** The bytes of a NUL-terminated C string that come before its terminator,
      so that `strlen` is the length of the sequence. */
  type CString = s: seq<Byte> | NulFree(s)

  /** The byte at index `i` of the terminated string in memory: the string's
      own bytes, then its NUL at index `|s|`. */
  function At(s: CString, i: nat): (r: Byte)
    requires i <= |s|
    ensures r == '\0' <==> i == |s|
    ensures i < |s| ==> r == s[i]
  {
    if i < |s| then s[i] else '\0'
  }

  datatype Option<+T> = None | Some(value: T)

  /** What the string printers substitute for a NULL `char *`. */
  const NullText: CString := "(null)"

  function OrNull(s: Option<CString>): CString {
    if s.Some? then s.value else NullText
  }

  /** One argument of a variadic call, tagged with the C type `va_arg` reads. */
  datatype Arg =
    | IntArg(i: Int32)
    | UIntArg(u: UInt32)
    | LongArg(l: Int64)
    | ULongArg(ul: UInt64)
    | PtrArg(p: Option<Address>)
    | StrArg(s: Option<CString>)

  /** The `(char)` conversion of an `int`: its low eight bits. */
  function ToChar(n: int): Byte {
    (n % 0x100) as char
  }

  function Abs(n: int): nat {
    if n < 0 then -n else n
  }

  function Max(a: int, b: int): int {
    if a < b then b else a
  }

  /** `n` copies of `c`; none when `n` is not positive. */
  function Repeat(c: Byte, n: int): (r: seq<Byte>)
    ensures |r| == Max(n, 0)
    ensures forall k | 0 <= k < |r| :: r[k] == c
  {
    seq(Max(n, 0), _ => c)
  }

  /** A negative count repeats nothing, as zero does. */
  lemma RepeatClamp(c: Byte, n: int)
    ensures Repeat(c, Max(n, 0)) == Repeat(c, n)
  {
  }

  function Spaces(n: int): seq<Byte> {
    Repeat(' ', n)
  }

  function Zeros(n: int): seq<Byte> {
    Repeat('0', n)
  }

  /** The first `n` bytes of `s`; none when `n` is not positive. */
  function Clip(s: seq<Byte>, n: int): (r: seq<Byte>)
    requires n <= |s|
    ensures |r| == Max(n, 0)
  {
    if n <= 0 then [] else s[..n]
  }

  /** `text` followed (left-aligned) or preceded by `fill` spaces. */
  function Pad(text: seq<Byte>, fill: int, left: bool): seq<Byte> {
    if left then text + Spaces(fill) else Spaces(fill) + text
  }

  /** A field written in three stages: the fill before the text unless it is
      left-aligned, the text, and the fill after it if it is. */
  lemma PadPieces(lead: seq<Byte>, text: seq<Byte>, trail: seq<Byte>, fill: int, left: bool)
    requires lead == if left then [] else Spaces(fill)
    requires trail == if left then Spaces(fill) else []
    ensures lead + text + trail == Pad(text, fill, left)
  {
  }

  /** `text` aligned in a field of at least `width` bytes. */
  function Justify(text: seq<Byte>, width: int, left: bool): seq<Byte> {
    Pad(text, width - |text|, left)
  }

  /** The padded text has `fill` extra bytes (none when `fill` is not
      positive), all spaces, after the text when left-aligned, else before. */
  lemma PadShape(text: seq<Byte>, fill: int, left: bool)
    ensures var r := Pad(text, fill, left);
      && |r| == |text| + Max(fill, 0)
      && (left ==> r[..|text|] == text && forall k | |text| <= k < |r| :: r[k] == ' ')
      && (!left ==> r[|r| - |text|..] == text && forall k | 0 <= k < |r| - |text| :: r[k] == ' ')
  {
  }

  /** `s` back to front. */
  function Reversed(s: seq<Byte>): (r: seq<Byte>)
    ensures |r| == |s|
    ensures forall k | 0 <= k < |s| :: r[k] == s[|s| - 1 - k]
  {
    seq(|s|, k requires 0 <= k < |s| => s[|s| - 1 - k])
  }

  lemma ReversedSnoc(s: seq<Byte>, x: Byte)
    ensures Reversed(s + [x]) == [x] + Reversed(s)
  {
    assert Reversed(s + [x]) == [x] + Reversed(s);
  }

  lemma ReversedReversed(s: seq<Byte>)
    ensures Reversed(Reversed(s)) == s
  {
    assert Reversed(Reversed(s)) == s;
  }

  /** The bytes a routine wrote and the count it returned. */
  datatype Written = Written(bytes: seq<Byte>, count: int)

  /** `for (i = 0; i < n; i++) count += _putchar(c);` */
  method PutRepeat(out: seq<Byte>, c: Byte, n: int) returns (out': seq<Byte>, written: int)
    ensures out' == out + Repeat(c, n)
    ensures written == |Repeat(c, n)|
  {
    out', written := out, 0;
    var i := 0;
    while i < n
      invariant 0 <= i && (n >= 0 ==> i <= n) && (n < 0 ==> i == 0)
      invariant out' == out + Repeat(c, i)
      invariant written == i
    {
      assert Repeat(c, i + 1) == Repeat(c, i) + [c];
      out', written := out' + [c], written + 1;
      i := i + 1;
    }
  }

  /** `for (i = 0; i < n; i++) count += _putchar(s[i]);` */
  method PutClip(out: seq<Byte>, s: seq<Byte>, n: int) returns (out': seq<Byte>, written: int)
    requires n <= |s|
    ensures out' == out + Clip(s, n)
    ensures written == |Clip(s, n)|
  {
    out', written := out, 0;
    var i := 0;
    while i < n
      invariant 0 <= i && (n >= 0 ==> i <= n) && (n < 0 ==> i == 0)
      invariant out' == out + s[..i]
      invariant written == i
    {
      out', written := out' + [s[i]], written + 1;
      assert s[..i + 1] == s[..i] + [s[i]];
      i := i + 1;
    }
  }
}
