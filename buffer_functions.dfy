/** The byte sink: a fixed-capacity buffer and its fill index, flushed to the
    output stream when a byte arrives and the buffer is full. The stream is
    the sequence of bytes `write` has delivered so far. */
module Buffering {
  import opened CText

  class OutputBuffer {
    /** `BUFFER_SIZE`, which the C code uses without defining. */
    const size: nat
    const buffer: array<Byte>
    var index: int
    /** Everything `write` has delivered to the stream. */
    var output: seq<Byte>
    /** Every byte ever given to the buffer, in order. */
    ghost var appended: seq<Byte>

    /** The index stays within the buffer, and no byte is lost: the stream
        followed by the buffered bytes is everything appended. */
    ghost predicate Valid()
      reads this, buffer
    {
      && buffer.Length == size
      && 0 < size
      && 0 <= index <= size
      && output + buffer[..index] == appended
    }

    constructor (size: nat)
      requires size > 0
      ensures Valid() && fresh(buffer)
      ensures this.size == size && index == 0 && output == [] && appended == []
    {
      this.size := size;
      buffer := new Byte[size];
      index := 0;
      output := [];
      appended := [];
    }

    /** `flush_buffer`: a non-empty buffer goes to the stream in one write,
        whose count is returned, and the index is reset; an empty one
        writes nothing and returns 0. */
    method FlushBuffer() returns (count: int)
      requires Valid()
      modifies this
      ensures Valid()
      ensures old(index) > 0 ==> output == old(output) + old(buffer[..index]) && count == old(index)
      ensures old(index) == 0 ==> output == old(output) && count == 0
      ensures index == 0
      ensures appended == old(appended)
    {
      count := 0;
      if index > 0 {
        output := output + buffer[..index];
        count := index;
        index := 0;
      }
    }

    /** `buffer_char`: flushes first exactly when the buffer is full, then
        stores `c` at the (possibly reset) index, advances it and returns 1.
        No other cell changes. */
    method BufferChar(c: Byte) returns (r: int)
      requires Valid()
      modifies this, buffer
      ensures Valid()
      ensures r == 1
      ensures appended == old(appended) + [c]
      ensures old(index) >= size ==> output == old(output) + old(buffer[..index]) && index == 1 && buffer[0] == c
      ensures old(index) < size ==> output == old(output) && index == old(index) + 1 && buffer[old(index)] == c
      ensures forall k | 0 <= k < size && k != index - 1 :: buffer[k] == old(buffer[k])
      ensures 1 <= index <= size
    {
      if index >= size {
        var _ := FlushBuffer();
      }
      buffer[index] := c;
      assert buffer[..index + 1] == buffer[..index] + [c] by {
        assert buffer[..index] == old(buffer[..index]) || index == 0;
      }
      index := index + 1;
      appended := appended + [c];
      r := 1;
    }

    /** `buffer_string`: appends the bytes of `s` (NULL reads as "(null)")
        one `buffer_char` at a time and returns how many. The stream only
        grows, and when the bytes fit in the room left nothing is flushed:
        they land in the buffer right after the bytes already held. */
    method BufferString(s: Option<CString>) returns (count: int)
      requires Valid()
      modifies this, buffer
      ensures Valid()
      ensures appended == old(appended) + OrNull(s)
      ensures count == |OrNull(s)|
      ensures old(output) <= output
      ensures old(index) + |OrNull(s)| <= size ==>
        output == old(output) && index == old(index) + |OrNull(s)| &&
        buffer[old(index)..index] == OrNull(s)
    {
      var str := OrNull(s);
      ghost var held := buffer[..index];
      count := 0;
      var p := 0;
      while At(str, p) != '\0'
        invariant Valid()
        invariant 0 <= p <= |str| && count == p
        invariant appended == old(appended) + str[..p]
        invariant old(output) <= output
        invariant old(index) + |str| <= size ==> output == old(output) && index == old(index) + p
        decreases |str| - p
      {
        var n := BufferChar(str[p]);
        assert str[..p + 1] == str[..p] + [str[p]];
        count := count + n;
        p := p + 1;
      }
      if old(index) + |str| <= size {
        assert output + buffer[..index] == output + (held + str);
        assert buffer[..index] == (output + buffer[..index])[|output|..];
        assert held + str == (output + (held + str))[|output|..];
        assert buffer[old(index)..index] == buffer[..index][|held|..];
      }
    }
  }
}
