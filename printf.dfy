/** The template driver of the option-less variant: `_printf` walks the
    format, copying literal bytes and handing each `%` and the byte after it
    to a conversion. It reaches the conversions only through the one-argument
    printers of `MinimalPrinters`. */
module Printf {
  import opened CText
  import MinimalPrinters

  /** What one directive writes and which arguments remain for the next one. */
  datatype Step = Step(w: Written, rest: seq<Arg>)

  /** The arguments the conversion letter `c` pops are there with the type
      it reads: an `int` for 'c', a `char *` for 's', none otherwise. */
  predicate LetterFits(c: Byte, args: seq<Arg>) {
    (c == 'c' ==> |args| > 0 && args[0].IntArg?) && (c == 's' ==> |args| > 0 && args[0].StrArg?)
  }

  /** The directive "%c" for a letter `c` that is not the terminator: the
      three known conversions, and any other byte echoed after a '%'. */
  function Directive(c: Byte, args: seq<Arg>): Step
    requires c != '\0' && LetterFits(c, args)
  {
    if c == 'c' then Step(Written([ToChar(args[0].i)], 1), args[1..])
    else if c == 's' then Step(Written(OrNull(args[0].s), |OrNull(args[0].s)|), args[1..])
    else if c == '%' then Step(Written("%", 1), args)
    else Step(Written(['%', c], 2), args)
  }

  /** Every directive from index `i` on finds the arguments it pops. */
  predicate Fits(f: CString, i: nat, args: seq<Arg>)
    requires i <= |f|
    decreases |f| - i
  {
    if i == |f| then true
    else if f[i] != '%' then Fits(f, i + 1, args)
    else if i + 1 == |f| then true
    else LetterFits(f[i + 1], args) && Fits(f, i + 2, Directive(f[i + 1], args).rest)
  }

  /** `a`'s bytes followed by `b`'s; the count is -1 once `b` failed, the
      sum of the two counts otherwise. */
  function Then(a: Written, b: Written): Written {
    Written(a.bytes + b.bytes, if b.count == -1 then -1 else a.count + b.count)
  }

  /** What the scan from index `i` writes and returns: a literal byte is
      written with count 1, a directive writes its conversion, and a '%'
      that is the last byte ends the scan with -1. */
  function Scan(f: CString, i: nat, args: seq<Arg>): (r: Written)
    requires i <= |f| && Fits(f, i, args)
    decreases |f| - i
  {
    if i == |f| then Written([], 0)
    else if f[i] != '%' then Then(Written([f[i]], 1), Scan(f, i + 1, args))
    else if i + 1 == |f| then Written([], -1)
    else
      var d := Directive(f[i + 1], args);
      Then(d.w, Scan(f, i + 2, d.rest))
  }

  /** `write_char`: one byte, count 1. */
  method WriteChar(c: Byte) returns (out: seq<Byte>, count: int)
    ensures out == [c]
    ensures count == 1
  {
    out, count := [c], 1;
  }

  /** `handle_specifier`, entered with `i` on a '%': steps `i` onto the byte
      after it and returns -1 there if that is the terminator; otherwise it
      runs the conversion that byte names. */
  method HandleSpecifier(format: CString, i: nat, args: seq<Arg>) returns (i': nat, out: seq<Byte>, count: int, rest: seq<Arg>)
    requires i < |format| && format[i] == '%'
    requires i + 1 < |format| ==> LetterFits(format[i + 1], args)
    ensures i' == i + 1
    ensures i' == |format| ==> out == [] && count == -1 && rest == args
    ensures i' < |format| ==> Step(Written(out, count), rest) == Directive(format[i'], args)
  {
    i' := i + 1;
    rest := args;
    if At(format, i') == '\0' {
      return i', [], -1, args;
    }
    var c := format[i'];
    if c == 'c' {
      out, count, rest := MinimalPrinters.PrintChar(args);
    } else if c == 's' {
      out, count, rest := MinimalPrinters.PrintString(args);
    } else if c == '%' {
      out, count, rest := MinimalPrinters.PrintPercent(args);
    } else {
      out := ['%', c];
      count := 2;
    }
  }

  /** One step of the scan from a byte before the terminator. */
  lemma ScanStep(f: CString, i: nat, args: seq<Arg>)
    requires i < |f| && Fits(f, i, args)
    ensures f[i] != '%' ==> Fits(f, i + 1, args) && Scan(f, i, args) == Then(Written([f[i]], 1), Scan(f, i + 1, args))
    ensures f[i] == '%' && i + 1 == |f| ==> Scan(f, i, args) == Written([], -1)
    ensures f[i] == '%' && i + 1 < |f| ==>
      && LetterFits(f[i + 1], args)
      && Fits(f, i + 2, Directive(f[i + 1], args).rest)
      && Scan(f, i, args) == Then(Directive(f[i + 1], args).w, Scan(f, i + 2, Directive(f[i + 1], args).rest))
  {
  }

  /** The scan already done followed by the scan still to do. */
  lemma ThenAssoc(a: Written, b: Written, c: Written)
    requires b.count >= 0 && c.count >= -1
    ensures Then(Then(a, b), c) == Then(a, Then(b, c))
  {
  }

  /** `process_format`: the template loop. Each literal byte goes through
      `write_char`; each '%' through `handle_specifier`, which leaves `i` on
      the conversion letter so that the loop's step passes it. A -1 from
      `handle_specifier` is returned at once, dropping the count so far. */
  method ProcessFormat(format: CString, args: seq<Arg>) returns (out: seq<Byte>, count: int)
    requires Fits(format, 0, args)
    ensures Written(out, count) == Scan(format, 0, args)
  {
    count := 0;
    out := [];
    var i: nat := 0;
    var cur := args;
    ghost var total := Scan(format, 0, args);
    while At(format, i) != '\0'
      invariant i <= |format| && Fits(format, i, cur)
      invariant count >= 0
      invariant Then(Written(out, count), Scan(format, i, cur)) == total
      decreases |format| - i
    {
      ghost var before := Written(out, count);
      ScanStep(format, i, cur);
      if format[i] == '%' {
        var t, sc, j, rest;
        j, t, sc, rest := HandleSpecifier(format, i, cur);
        if sc == -1 {
          return out + t, -1;
        }
        ScanAdvance(format, i, cur, total, before, Written(t, sc), i + 2, rest);
        out := out + t;
        count := count + sc;
        i, cur := j, rest;
      } else {
        var t, n := WriteChar(format[i]);
        ScanAdvance(format, i, cur, total, before, Written(t, n), i + 1, cur);
        out := out + t;
        count := count + n;
      }
      i := i + 1;
    }
  }

  /** A step that writes `step` moves the scan from `i` to `next`; the bytes
      and count accumulated so far absorb it. */
  lemma ScanAdvance(f: CString, i: nat, cur: seq<Arg>, total: Written, acc: Written,
                    step: Written, next: nat, rest: seq<Arg>)
    requires i < next <= |f| && Fits(f, i, cur) && Fits(f, next, rest)
    requires acc.count >= 0 && step.count == |step.bytes|
    requires Scan(f, i, cur) == Then(step, Scan(f, next, rest))
    requires Then(acc, Scan(f, i, cur)) == total
    ensures Then(Written(acc.bytes + step.bytes, acc.count + step.count), Scan(f, next, rest)) == total
  {
    ScanCount(f, next, rest);
    ThenAssoc(acc, step, Scan(f, next, rest));
  }

  /** `_printf`: -1 and no output for a NULL format, else the template scan. */
  method Printf(format: Option<CString>, args: seq<Arg>) returns (out: seq<Byte>, count: int)
    requires format.Some? ==> Fits(format.value, 0, args)
    ensures format.None? ==> out == [] && count == -1
    ensures format.Some? ==> Written(out, count) == Scan(format.value, 0, args)
  {
    if format.None? {
      return [], -1;
    }
    out, count := ProcessFormat(format.value, args);
  }

  /** The count is -1, or it is the number of bytes written: each literal and
      each conversion counts the bytes it writes. */
  lemma {:induction false} ScanCount(f: CString, i: nat, args: seq<Arg>)
    requires i <= |f| && Fits(f, i, args)
    ensures Scan(f, i, args).count == -1 || Scan(f, i, args).count == |Scan(f, i, args).bytes|
    decreases |f| - i
  {
    if i < |f| {
      if f[i] != '%' {
        ScanCount(f, i + 1, args);
      } else if i + 1 < |f| {
        ScanCount(f, i + 2, Directive(f[i + 1], args).rest);
      }
    }
  }

  /** A template without '%' is copied byte for byte, its count is its
      length, and it pops no argument. */
  lemma {:induction false} LiteralTemplate(f: CString, i: nat, args: seq<Arg>)
    requires i <= |f|
    requires forall k | i <= k < |f| :: f[k] != '%'
    ensures Fits(f, i, args)
    ensures Scan(f, i, args) == Written(f[i..], |f| - i)
    decreases |f| - i
  {
    if i < |f| {
      LiteralTemplate(f, i + 1, args);
      assert f[i..] == [f[i]] + f[i + 1..];
    }
  }

  /** A template whose only '%' is its last byte writes the literal bytes
      before it and then returns -1. */
  lemma TrailingPercent(lit: CString, args: seq<Arg>)
    requires forall k | 0 <= k < |lit| :: lit[k] != '%'
    ensures Fits(lit + "%", 0, args)
    ensures Scan(lit + "%", 0, args) == Written(lit, -1)
  {
    TrailingPercentFrom(lit, 0, args);
  }

  lemma {:induction false} TrailingPercentFrom(lit: CString, i: nat, args: seq<Arg>)
    requires i <= |lit|
    requires forall k | 0 <= k < |lit| :: lit[k] != '%'
    ensures Fits(lit + "%", i, args)
    ensures Scan(lit + "%", i, args) == Written(lit[i..], -1)
    decreases |lit| - i
  {
    var f: CString := lit + "%";
    if i < |lit| {
      TrailingPercentFrom(lit, i + 1, args);
      assert f[i] == lit[i];
      assert lit[i..] == [lit[i]] + lit[i + 1..];
    } else {
      assert f[i] == '%' && i + 1 == |f|;
    }
  }

  /** A literal prefix is written first and adds its length to the count of
      what follows; a failure after it still returns -1. */
  lemma {:induction false} LiteralPrefix(lit: CString, g: CString, i: nat, args: seq<Arg>)
    requires i <= |lit|
    requires forall k | 0 <= k < |lit| :: lit[k] != '%'
    requires Fits(g, 0, args)
    ensures Fits(lit + g, i, args)
    ensures Scan(lit + g, i, args) == Then(Written(lit[i..], |lit| - i), Scan(g, 0, args))
    decreases |lit| - i
  {
    var f: CString := lit + g;
    if i < |lit| {
      LiteralPrefix(lit, g, i + 1, args);
      ScanCount(g, 0, args);
      ThenAssoc(Written([lit[i]], 1), Written(lit[i + 1..], |lit| - i - 1), Scan(g, 0, args));
      assert f[i] == lit[i];
      assert lit[i..] == [lit[i]] + lit[i + 1..];
    } else {
      ShiftedScan(lit, g, 0, args);
    }
  }

  /** Scanning `g` inside `lit + g` from `|lit| + j` is scanning `g` from `j`. */
  lemma {:induction false} ShiftedScan(lit: CString, g: CString, j: nat, args: seq<Arg>)
    requires j <= |g| && Fits(g, j, args)
    ensures Fits(lit + g, |lit| + j, args)
    ensures Scan(lit + g, |lit| + j, args) == Scan(g, j, args)
    decreases |g| - j
  {
    var f: CString := lit + g;
    if j < |g| {
      assert f[|lit| + j] == g[j];
      if g[j] != '%' {
        ShiftedScan(lit, g, j + 1, args);
      } else if j + 1 < |g| {
        assert f[|lit| + j + 1] == g[j + 1];
        ShiftedScan(lit, g, j + 2, Directive(g[j + 1], args).rest);
      }
    }
  }

  /** "%%" writes one '%' and pops nothing. */
  lemma PercentPercent(args: seq<Arg>)
    ensures Fits("%%", 0, args)
    ensures Scan("%%", 0, args) == Written("%", 1)
  {
  }

  /** A '%' before any letter other than 'c', 's' and '%' writes both bytes,
      counts 2 and pops nothing. */
  lemma UnknownEcho(c: Byte, args: seq<Arg>)
    requires c != '\0' && c !in "cs%"
    ensures NulFree(['%', c])
    ensures Fits(['%', c], 0, args)
    ensures Scan(['%', c], 0, args) == Written(['%', c], 2)
  {
  }
}
