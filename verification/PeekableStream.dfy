/**
The peekable stream: a sliding buffer over a source that yields its bytes in chunks of any
size. It behaves as a sequence of bytes with a cursor, and its rewinding is economical.
 */
module PeekableStreams {
  import opened Bits
  import opened ByteStrings

  /** An input stream that yields at most what is asked for, in chunks of its own choosing. */
  class Source {
    var remaining: seq<Byte>

    constructor (bytes: seq<Byte>)
      ensures remaining == bytes
    {
      remaining := bytes;
    }

    /** Some of the next `n` bytes; none only at the end. */
    method ReadUpTo(n: nat) returns (chunk: seq<Byte>)
      requires n > 0
      modifies this
      ensures |chunk| <= n && chunk + remaining == old(remaining) && (chunk == [] ==> remaining == [])
    {
      var most := Min(n, |remaining|);
      assert most == 0 ==> remaining == [];
      var k :| 0 <= k <= most && (k == 0 ==> most == 0);
      chunk := remaining[..k];
      remaining := remaining[k..];
    }

    /** Pass over `n` bytes, or over all there are. */
    method Skip(n: nat)
      modifies this
      ensures remaining == old(remaining)[Min(n, |old(remaining)|)..]
    {
      remaining := remaining[Min(n, |remaining|)..];
    }
  }

  /** The smallest power of two that is at least `n`; 0 for 0. */
  function NextPowerOf2(n: nat): (p: nat)
    ensures n <= p && (n > 0 ==> p < 2 * n)
  {
    if n < 2 then n else 2 * NextPowerOf2((n + 1) / 2)
  }

  lemma {:induction false} NextPowerOf2Is(n: nat)
    ensures n > 0 ==> exists k: nat :: NextPowerOf2(n) == Pow2(k) && n <= Pow2(k) < 2 * n
  {
    if n == 1 {
      assert NextPowerOf2(1) == Pow2(0);
    } else if n > 1 {
      NextPowerOf2Is((n + 1) / 2);
      var k: nat :| NextPowerOf2((n + 1) / 2) == Pow2(k);
      assert NextPowerOf2(n) == Pow2(k + 1);
    }
  }

  class PeekableStream {
    const source: Source
    var buffer: array<Byte>
    var buffer_start: nat
    var buffer_end: nat
    ghost var consumed: nat        // the bytes of the stream before the first one in the buffer
    ghost var rewound_to: nat      // the bytes moved by a rewind so far come before this place

    ghost predicate Valid()
      reads this
    {
      && buffer_start <= buffer_end <= buffer.Length
      && rewound_to + buffer_start <= consumed + buffer.Length / 2
    }

    /** The bytes that have not been consumed. */
    ghost function Contents(): seq<Byte>
      requires Valid()
      reads this, buffer, source
    {
      buffer[buffer_start..buffer_end] + source.remaining
    }

    constructor (source: Source)
      ensures Valid() && Contents() == source.remaining && this.source == source && fresh(buffer)
      ensures consumed == rewound_to == buffer.Length == 0
    {
      this.source := source;
      buffer := new Byte[0];
      buffer_start, buffer_end, consumed, rewound_to := 0, 0, 0, 0;
    }

    /** Append the next `n` bytes of the source to the buffer, or all there are. */
    method ReadExactly(n: nat)
      requires Valid() && buffer.Length - buffer_end >= n
      modifies `buffer_end, buffer, source
      ensures Valid() && Contents() == old(Contents())
      ensures buffer_end - old(buffer_end) == Min(n, |old(source.remaining)|)
      ensures buffer[..old(buffer_end)] == old(buffer[..buffer_end])
      decreases n
    {
      if n == 0 {
        return;
      }
      var newbuf := source.ReadUpTo(n);
      if newbuf == [] {
        return;
      }
      Append(newbuf);
      ReadExactly(n - |newbuf|);
    }

    method Append(bytes: seq<Byte>)
      requires Valid() && buffer.Length - buffer_end >= |bytes|
      modifies `buffer_end, buffer
      ensures Valid() && buffer_end == old(buffer_end) + |bytes|
      ensures buffer[..old(buffer_end)] == old(buffer[..buffer_end])
      ensures buffer[buffer_start..buffer_end] == old(buffer[buffer_start..buffer_end]) + bytes
    {
      forall i | 0 <= i < |bytes| {
        buffer[buffer_end + i] := bytes[i];
      }
      buffer_end := buffer_end + |bytes|;
      assert buffer[old(buffer_end)..buffer_end] == bytes;
      assert buffer[buffer_start..buffer_end] == buffer[buffer_start..old(buffer_end)] + buffer[old(buffer_end)..buffer_end];
    }

    /** Make room for `n` more bytes. Nothing happens if there is room; the buffer is rewound if more
        than half of it is consumed and that will do; otherwise there is a new one, whose size is the
        power of two that holds all up to the old end and the `n` bytes. */
    method EnsureSpace(n: nat)
      requires Valid()
      modifies this, buffer
      ensures Valid() && buffer.Length - buffer_end >= n && (buffer == old(buffer) || fresh(buffer))
      ensures buffer[buffer_start..buffer_end] == old(buffer[buffer_start..buffer_end]) && consumed == old(consumed)
      ensures old(buffer_end) + n <= old(buffer.Length) ==> (buffer_start, buffer_end) == old((buffer_start, buffer_end))
      ensures buffer == old(buffer) <==>
        || old(buffer_end) + n <= old(buffer.Length)
        || (n + old(buffer_end - buffer_start) < old(buffer.Length) < 2 * old(buffer_start))
      ensures buffer != old(buffer) || old(buffer_end) + n > old(buffer.Length) ==> buffer_start == 0
      ensures buffer != old(buffer) ==> exists k: nat :: buffer.Length == Pow2(k) && old(buffer_end) + n <= buffer.Length < 2 * (old(buffer_end) + n)
    {
      hide Pow2;
      if buffer.Length - buffer_end >= n {
        return;
      } else if buffer.Length > n + (buffer_end - buffer_start) && buffer_start > buffer.Length / 2 {
        Rewind();
      } else {
        Reallocate(n);
      }
    }

    /** Move the bytes to the front of the buffer. None of them has been moved so before. */
    method Rewind()
      requires Valid() && buffer_start > buffer.Length / 2
      requires rewound_to <= consumed
      modifies this, buffer
      ensures Valid() && buffer == old(buffer) && buffer_start == 0 && buffer_end == old(buffer_end) - old(buffer_start)
      ensures buffer[..buffer_end] == old(buffer[buffer_start..buffer_end]) && consumed == old(consumed)
      ensures rewound_to == consumed + buffer_end
    {
      var start, length := buffer_start, buffer_end - buffer_start;
      forall i | 0 <= i < length {
        buffer[i] := buffer[start + i];
      }
      assert buffer[..length] == old(buffer[buffer_start..buffer_end]);
      buffer_end := buffer_end - buffer_start;
      buffer_start := 0;
      rewound_to := consumed + length;
    }

    /** Allocate a bigger buffer, of a size that is a power of two, and move the unconsumed bytes into it. */
    method Reallocate(n: nat)
      requires Valid() && buffer.Length - buffer_end < n
      modifies this
      ensures Valid() && fresh(buffer) && buffer.Length - buffer_end >= n && buffer_start == 0
      ensures exists k: nat :: buffer.Length == Pow2(k) && old(buffer_end) + n <= buffer.Length < 2 * (old(buffer_end) + n)
      ensures buffer[..buffer_end] == old(buffer[buffer_start..buffer_end])
      ensures consumed == old(consumed) && rewound_to == old(rewound_to)
    {
      hide Pow2;
      NextPowerOf2Is(buffer_end + n);
      var b := new Byte[NextPowerOf2(buffer_end + n)];
      var start, length := buffer_start, buffer_end - buffer_start;
      forall i | 0 <= i < length {
        b[i] := buffer[start + i];
      }
      assert b[..length] == buffer[buffer_start..buffer_end];
      buffer := b;
      buffer_end := buffer_end - buffer_start;
      buffer_start := 0;
    }

    /** View the next `n` bytes, or all there are; the view is a piece of the buffer. */
    method Peek(n: nat) returns (view: seq<Byte>, at: nat)
      requires Valid()
      modifies this, buffer, source
      ensures Valid() && Contents() == old(Contents()) && (buffer == old(buffer) || fresh(buffer))
      ensures view == Contents()[..Min(n, |Contents()|)]
      ensures at + |view| <= buffer.Length && buffer[at..at + |view|] == view && (n > 0 ==> at == buffer_start)
      ensures consumed == old(consumed)
      ensures n <= old(buffer_end - buffer_start) ==>
        buffer == old(buffer) && (buffer_start, buffer_end) == old((buffer_start, buffer_end))
      ensures n > old(buffer_end - buffer_start) ==> buffer_end - buffer_start == |view|
    {
      at := buffer_start;
      if n == 0 {
        return [], buffer_start;
      }
      if buffer_end - buffer_start >= n {
        view := buffer[buffer_start..buffer_start + n];
        return;
      }
      var bytes_needed := n - (buffer_end - buffer_start);
      EnsureSpace(bytes_needed);
      ReadExactly(bytes_needed);
      at := buffer_start;
      view := buffer[buffer_start..buffer_end];
    }

    /** Consume `n` bytes, or all there are. The buffer is left alone, so a view that has been
        peeked stays what it is. */
    method Advance(n: nat)
      requires Valid()
      modifies `buffer_start, `buffer_end, `consumed, source
      ensures Valid() && Contents() == old(Contents())[Min(n, |old(Contents())|)..] && consumed == old(consumed) + n
    {
      var held := buffer_end - buffer_start;
      if held > n {
        buffer_start := buffer_start + n;
        consumed := consumed + n;
      } else {
        source.Skip(n - held);
        buffer_end := 0;
        buffer_start := 0;
        consumed := consumed + n;
      }
    }

    /** The contents of a page: peeked, passed over, and still there to be read. */
    method NextPageContents(size: nat) returns (ok: bool, contents: seq<Byte>, ghost at: nat)
      requires Valid()
      modifies this, buffer, source
      ensures Valid() && ok == (size <= |old(Contents())|) && (buffer == old(buffer) || fresh(buffer))
      ensures ok ==>
        && contents == old(Contents())[..size] && Contents() == old(Contents())[size..]
        && at + size <= buffer.Length && buffer[at..at + size] == contents
    {
      contents, at := Peek(size);
      ok := |contents| >= size;
      if ok {
        Advance(size);
      }
    }
  }
}
