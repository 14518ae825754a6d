# A verified model of a reduced `printf`

This project models the rendering core of a small C `printf` in Dafny. The core
takes one value and a formatting-options record and turns them into an exact
byte sequence and the count the C routine returns. The model proves what those
bytes are. It covers:

- sign slot, `#` prefix, precision zeros, field width, `0` fill and `-` alignment;
- the digits of every base the printers use, and that they read back;
- string precision, reversal, rot13 and `\xHH` escapes;
- the template scanner of the option-less variant;
- the fixed-capacity output buffer.

Every `_putchar` or `write` of one byte is modelled the same way. It appends
that byte to the output sequence a printer returns, and it adds 1 to the
printer's count. A printer method is proved to write exactly a *field
function* of its inputs (for example `Printers.NumberField` or
`Printers.StringField`). The laws the C code promises are then proved as lemmas
about those field functions.

Modules:

- `CText` (ctext.dfy): bytes, C integer types, C strings, the `va_list`
  argument sequence, padding and reversal, and the two byte-loop steps shared
  by the printers.
- `Numerals` (numerals.dfy): the digit tables and the numeral of a value in
  bases 2 to 16, with its read-back, leading digit, case and length.
- `FormatOptions` (options.dfy): the `fmt_options` record of main.h. A *NULL
  record* is read as the all-zero record (`Resolve`).
- `Printers` (functions.dfy): `ultoa_base` on an array, which fills it
  backwards and then reverses it in place. Also `print_number_base_str` and the
  nine option-aware printers, each with the field function it is proved to
  write.
- `PrinterLaws` (printer_laws.dfy): the properties of those fields.
- `MinimalPrinters` (print_functions.dfy): the older, option-less printers,
  including the recursive decimal and binary printers.
- `Printf` (printf.dfy): `_printf`, `process_format`, `handle_specifier` and
  `write_char`. They call the option-less printers, as `_printf.c` does.
- `Buffering` (buffer_functions.dfy): `buffer_char`, `flush_buffer` and
  `buffer_string`, modelled as a class over a `BUFFER_SIZE` array and its
  index.

The sources contain two printer variants with clashing signatures:

- `_printf.c` and `print_functions.c` use one-argument printers;
- main.h and `functions.c` use printers that take an options record.

The model keeps the two apart (`MinimalPrinters`/`Printf` against `Printers`)
and does not reconcile them.

No file of the repository parses flags, width, precision or length into the
options record. Every option-aware printer therefore takes the record as an
input. A negative precision with `precision_specified` set is rendered just as
the C arithmetic does it (for strings, `width - to_print` spaces with
`to_print` negative).

## Model

| member | source | states |
|---|---|---|
| `CText.At` | print_functions.c:30 | reading the terminated string at index `i` yields NUL exactly at its length, and its own byte before that |
| `CText.PutRepeat` | functions.c:71-72 | the counting `_putchar` loop writes `n` copies of the byte (none for `n <= 0`) and counts them |
| `CText.PutClip` | functions.c:104-105 | the counting loop writes the first `n` bytes of the string in order and counts them |
| `CText.PadShape` | functions.c:170-183 | a padded text has `max(fill,0)` extra bytes, all spaces, after the text when left-aligned and before it otherwise |
| `CText.ReversedReversed` | functions.c:239-244 | reversing twice gives the text back |
| `Numerals.NumeralRoundTrip` | functions.c:220-247 | the numeral of a value reads back in its base as that value |
| `Numerals.NumeralLeadingDigit` | functions.c:226-237 | the numeral is never empty, is "0" for zero, and starts with '0' only then |
| `Numerals.NumeralCase` | functions.c:222 | every byte of the numeral is a digit below the base from the table of the requested case |
| `Numerals.NumeralNulFree` | functions.c:245 | the numeral holds no NUL, so the terminated buffer ends right after it |
| `Numerals.DigitsLength` | functions.c:233 | a value below 2^k has at most k digits, so a 64-bit value never reaches the `bufsize - 1` guard of a 70-byte buffer |
| `Printers.UltoaBase` | functions.c:220-247 | the buffer holds the numeral of the value (exactly "0" for zero), most significant digit first, followed by a NUL |
| `Printers.PutDigitsBackwards` | functions.c:233-237 | the remainder loop stores the digits least significant first, within the buffer |
| `Printers.ReverseInPlace` | functions.c:239-244 | the swap loop reverses the first `n` cells and leaves the rest unchanged |
| `Printers.PrintNumberBaseStr` | functions.c:16-117 | writes exactly `NumberField` of the digits, options, sign and prefix, and counts every byte |
| `Printers.PutLeft` | functions.c:58-97 | the left stage writes sign and prefix then zeros under zero fill, spaces then sign and prefix otherwise, only sign and prefix under dash |
| `Printers.PutMagnitude` | functions.c:99-105 | the precision zeros and then the first `len` digits |
| `Printers.PutRightPad` | functions.c:107-114 | trailing spaces up to the width only under the dash flag |
| `Printers.PutSignAndPrefix` | functions.c:90-96 | the sign byte when there is one, then the prefix bytes |
| `Printers.PrintChar` | functions.c:120-151 | writes the argument's low byte in a field of the width, pads by dash, treats a NULL record as width 0, and pops one `int` |
| `Printers.PrintPercent` | functions.c:189-217 | writes '%' in a field of the width, treats a NULL record as width 0, and pops nothing |
| `Printers.PrintString` | functions.c:154-186 | writes the string (NULL as "(null)") capped at the precision in a field of the width |
| `Printers.PutFill` | functions.c:170-174 | the fill loop writes `fill` spaces when its side is selected and nothing otherwise |
| `Printers.PrintReverse` | functions.c:329-373 | writes the shown bytes back to front in a field of the width, with NULL string and NULL record handled |
| `Printers.PutReversed` | functions.c:361-363 | the downward loop writes the first `to_print` bytes last to first |
| `Printers.PrintS` | functions.c:376-444 | writes the escaped shown bytes, padded by the expanded length |
| `Printers.ExpandedLength` | functions.c:400-408 | the counting loop computes the length of the expansion of the shown bytes |
| `Printers.PutExpanded` | functions.c:417-434 | the loop writes the expansion of the shown bytes in order |
| `Printers.PutEscape` | functions.c:420-433 | one source byte writes its escape: itself, or `\`, `x` and two upper-case nibbles |
| `Printers.PrintRot13` | functions.c:447-497 | writes the rot13 of the shown bytes in a field of the width |
| `Printers.PutRot13` | functions.c:478-487 | the loop writes each shown byte rotated |
| `Printers.Rot13Text` | functions.c:478-487 | rotation keeps the length |
| `Printers.PrintNumber` | functions.c:250-284 | reads an `int`, a `short` conversion of one, or a `long` by the length, and writes the number field of its magnitude with the sign of the value |
| `Printers.RenderDigits` | functions.c:273-280 | the buffer holds the numeral of the magnitude in the requested base and case, emptied for the value 0 at precision 0 |
| `Printers.PrintUnsigned` | functions.c:287-326 | reads by the length (`unsigned short` truncation for 'h') and writes the number field with the `#` prefix of a non-zero value |
| `Printers.PrintPointer` | functions.c:500-534 | writes "(nil)" padded to the width for NULL, else "0x" and the lower-case hex digits through the number field |
| `PrinterLaws.NumberFieldLength` | functions.c:51-56 | the field is `max(width, content_len)` bytes, where `content_len` counts the sign slot, prefix, precision zeros and digits, and the magnitude is `max(len, precision)` |
| `PrinterLaws.NumberFieldCongruence` | functions.c:16-117 | the field depends on the options only through sign slot, width, dash, fill kind and precision |
| `PrinterLaws.NumberFieldOrder` | functions.c:58-97 | under dash: sign, prefix, digits, then spaces; under zero fill: sign, prefix, zeros, digits; otherwise: spaces, sign, prefix, digits |
| `PrinterLaws.SignRules` | functions.c:29-34 | '-' exactly for a negative value; `plus` beats `space`; neither flag changes a negative field |
| `PrinterLaws.ZeroFlagOverridden` | functions.c:59-60 | the zero flag changes nothing under dash or a given precision, and under dash the field starts with sign and prefix |
| `PrinterLaws.MagnitudeReadsBack` | functions.c:99-105 | the precision zeros come before the digits and do not change the value they read as |
| `PrinterLaws.IntegerFieldDigits` | functions.c:273-283 | the shown digits are decimal and read back as the magnitude; precision 0 with value 0 shows only the sign slot in the field |
| `PrinterLaws.ToShortRange` | functions.c:258-259 | the `(short)` conversion lands in the 16-bit range, agrees modulo 2^16 and keeps values already in range |
| `PrinterLaws.UnsignedFieldDigits` | functions.c:301-325 | the digits read back as the value; `#` has no effect for 0; the prefix is "0" in base 8 and "0x"/"0X" in base 16 by case |
| `PrinterLaws.PointerFieldShape` | functions.c:500-534 | NULL gives "(nil)" in `max(width, 5)` bytes on the side the dash flag picks; any other pointer gives the sign slot, "0x" and lower-case hex digits that read back as the address, with the fill as trailing spaces under dash, zeros after "0x" under zero fill, else leading spaces |
| `PrinterLaws.CharFieldShape` | functions.c:132-150 | one byte in `max(width, 1)` bytes, first under dash and last otherwise, every other byte a space |
| `PrinterLaws.ShownLengthRule` | functions.c:164-167 | the shown count is the precision when it is given and below the length, the length otherwise |
| `PrinterLaws.StringFieldShape` | functions.c:169-183 | the shown prefix of the string in `max(width, shown)` bytes, on the side the dash flag picks |
| `PrinterLaws.ReverseFieldShape` | functions.c:361-363 | the text written is the shown bytes last to first, reversing it gives them back, and the field is as long as the string field |
| `PrinterLaws.Rot13Classes` | functions.c:480-485 | letters stay in their case and change; every other byte is unchanged |
| `PrinterLaws.Rot13Involutive` | functions.c:482-485 | rotating a byte twice gives it back |
| `PrinterLaws.Rot13TextAt` | functions.c:478-487 | the rotated text maps byte by byte |
| `PrinterLaws.Rot13TextInvolutive` | functions.c:478-487 | rotating a text twice gives it back |
| `PrinterLaws.Rot13FieldShape` | functions.c:447-497 | the rot13 field is the string field with every byte rotated |
| `PrinterLaws.EscapeReadsBack` | functions.c:420-433 | a printable byte is itself; any other is `\x` and two upper-case hex digits whose value is the byte, high nibble first |
| `PrinterLaws.ExpandLength` | functions.c:400-408 | each unprintable byte adds three bytes to the expansion; printable text expands to itself |
| `PrinterLaws.SFieldShape` | functions.c:410-441 | padding uses the expanded length, to `max(width, expanded)` bytes, while the precision counts source bytes |
| `MinimalPrinters.PrintNumber` | print_functions.c:69-89 | '-' for a negative value, then the decimal numeral of the magnitude built by the recursion on `num / 10`; the count is the byte count |
| `MinimalPrinters.PrintNumberDigits` | print_functions.c:71-88 | the digits read back as the magnitude, have no leading zero unless the value is 0 (which prints "0"), and the count is the digit count plus one if negative |
| `MinimalPrinters.PrintBinaryRecursive` | print_functions.c:109-118 | the binary numeral of `n`, higher digits by the recursion on `n / 2`, "0" for zero |
| `MinimalPrinters.PrintBinaryDigits` | print_functions.c:109-118 | only '0' and '1', reads back as `n`, no leading zero unless `n` is 0 |
| `MinimalPrinters.PrintBinaryLength` | print_functions.c:111-117 | the count is the bit length of `n`, at least 1 |
| `MinimalPrinters.PrintInt` | print_functions.c:57-61 | pops an `int` and writes it as `print_number` does |
| `MinimalPrinters.PrintBinary` | print_functions.c:97-101 | pops an `unsigned int` and writes its binary numeral |
| `MinimalPrinters.PrintString` | print_functions.c:22-37 | writes the bytes up to the NUL (NULL as "(null)") in order and returns the string length |
| `MinimalPrinters.PrintChar` | print_functions.c:9-14 | writes exactly the argument's low byte and returns 1 |
| `MinimalPrinters.PrintPercent` | print_functions.c:45-49 | writes exactly "%", returns 1 and pops nothing |
| `Printf.WriteChar` | _printf.c:92-95 | one byte, count 1 |
| `Printf.HandleSpecifier` | _printf.c:62-84 | moves the index onto the byte after '%'; -1 with no output when that is the terminator, otherwise the directive it names |
| `Printf.ProcessFormat` | _printf.c:31-52 | the loop writes and returns exactly the template scan: literals copied and counted, directives in order, and -1 at once on a trailing '%' |
| `Printf.Printf` | _printf.c:9-22 | a NULL format returns -1 and writes nothing; otherwise the result is the template scan |
| `Printf.ScanCount` | _printf.c:43-51 | the return value is -1 or the sum of per-literal and per-directive counts, which is the number of bytes written |
| `Printf.LiteralTemplate` | _printf.c:36-51 | a template with no '%' is written unchanged, count one per byte, return equal to its length |
| `Printf.TrailingPercent` | _printf.c:66-68 | a template whose only '%' is its last byte writes the literal bytes before it and returns -1 |
| `Printf.TrailingPercentFrom` | _printf.c:40-42 | the -1 of a trailing '%' replaces the count accumulated before it |
| `Printf.LiteralPrefix` | _printf.c:36-51 | a literal prefix is written first and its length is added to the count of what follows |
| `Printf.ShiftedScan` | _printf.c:36-50 | the scan of a template's tail does not depend on the bytes before it |
| `Printf.PercentPercent` | _printf.c:74-75 | "%%" writes one '%' with count 1 and pops nothing |
| `Printf.UnknownEcho` | _printf.c:76-81 | '%' before any other letter writes both bytes with count 2 and pops nothing |
| `Buffering.OutputBuffer.FlushBuffer` | buffer_functions.c:10-21 | a non-empty buffer is written in order with its index as the count and the index reset; an empty one writes nothing and returns 0; no byte is lost |
| `Buffering.OutputBuffer.BufferChar` | buffer_functions.c:31-40 | flushes first exactly when full, stores the byte at the (possibly reset) index, advances it to within `1..BUFFER_SIZE`, changes no other cell, returns 1, and loses no byte |
| `Buffering.OutputBuffer.BufferString` | buffer_functions.c:50-64 | appends the string's bytes (NULL as "(null)") in order, returns its length and loses no byte; when they fit in the room left nothing is flushed and they sit in the buffer after the bytes already held |

## Left out

- Output itself: `putchar`/`write` always succeed and append their bytes. The `-1` error return of `_putchar` (functions.c:12) and short writes are not modelled.
- `va_arg`: arguments are a typed sequence that each printer pops once. A printer's `requires` states which C type it reads. An argument of another type is outside the model.
- Pointers are `Option<Address>`: `None` is NULL and a present address is never 0, as a C pointer that compares unequal to NULL is. The `uintptr_t` conversion of functions.c:530 is taken as the address value.
- `isprint` is fixed to ASCII `0x20..0x7E`. Locale-dependent classification is not modelled.
- Printers.PrintNumber: uses the mathematical magnitude, because negating `LONG_MIN` with `-(long)val` (functions.c:268) overflows; an `int` or `short` value is held in the `long` `val` (functions.c:252), so its negation at functions.c:270 is exact. The two branches at functions.c:267-270 therefore coincide in the model.
- MinimalPrinters.PrintNumber: uses the mathematical magnitude of `INT_MIN` for the same reason (print_functions.c:77).
- `BUFFER_SIZE` is an undefined constant in the sources. It is the `size` parameter of the buffer class, any positive value.
- Printers.UltoaBase: requires a buffer of more than 64 bytes instead of taking `bufsize`, because the `bufsize - 1` guard of functions.c:233 never binds for the 70-byte buffers its callers pass.
- `ultoa_base` returns the pointer to `buf`. The model returns the numeral's length instead.
- A NULL `prefix` of `print_number_base_str` is modelled as the empty prefix.
- The count is an unbounded integer. Overflow of the C `int` counters is not modelled.
- The option-aware printers dereference the options record without a test where the C does (`print_string`, `print_number`, `print_unsigned`, the non-NULL path of `print_pointer`). These printers take a record, not an optional one.
- Loop shape: each printer's counting loops are separate helper methods. Each helper builds its bytes and the printer appends them; the bytes and their order are the C's.
- The flag, width, precision and length parser: none exists in these sources, and none is modelled.
- The two clashing printer variants are kept in separate modules and are not reconciled.
- main.h is declarations only. Its struct is `FormatOptions.FmtOptions`.
