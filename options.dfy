/** The formatting-options record the option-aware printers read. No parser
    fills it in this model: every printer takes it as an input. */
module FormatOptions {
  import opened CText

  /** The `length` member: 'h', 'l', or anything else (read as no modifier). */
  datatype LengthModifier = NoLength | ShortLength | LongLength

  /** One directive's flags, field width, precision and length modifier. The
      C record keeps the flags as `int`s tested for non-zero. */
  datatype FmtOptions = FmtOptions(
    plus: bool,
    space: bool,
    hash: bool,
    zero: bool,
    dash: bool,
    width: Int32,
    precision: Int32,
    precisionSpecified: bool,
    length: LengthModifier)

  /** The record every field of which is zero. */
  const Zeroed: FmtOptions := FmtOptions(false, false, false, false, false, 0, 0, false, NoLength)

  /** The printers that test their `opts` pointer read a NULL one as width 0
      with no flags and no precision, which is the zeroed record. */
  function Resolve(opts: Option<FmtOptions>): FmtOptions {
    if opts.Some? then opts.value else Zeroed
  }
}
