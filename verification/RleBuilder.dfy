/**
The growing hybrid encoder: when its encoder reports full, it is flushed, the buffer is
doubled and a new encoder goes on behind the bytes written so far. And the round trips.
 */
module RleBuilding {
  import opened Options
  import opened Bits
  import opened BitWriting
  import opened BitReading
  import opened BitPacking
  import opened Rle
  import opened RleDecoding
  import opened RleEncoding

  // ----- What the encoder's state guarantees -----

  /** With room for the worst case of `n` values no `Put` is ever refused. */
  lemma {:induction false} NeverFull(e: RleEncoder, n: nat)
    requires e.Valid() && |e.input| <= n
    requires e.bit_writer.max_bytes >= MinBufferSize(e.bit_width) + MaxBufferSize(e.bit_width, n)
    ensures !e.buffer_full
  {
    hide Serialize, Expand, MinBufferSize, MaxBufferSize, Budget, AllValid, AllLong;
    SerializeCost(e.runs, e.bit_width);
    BudgetMonotonic(|Expand(e.runs)| / 8, CeilDiv8(n), e.bit_width);
    BudgetIsMaxBufferSize(n, e.bit_width);
  }

  /** The repeat is no longer than the input ends with its value. */
  lemma {:induction false} TrailingCanPut(e: RleEncoder, value: nat)
    requires e.Valid() && Trailing(e.input, value) < RepeatLimit(e.bit_width)
    ensures e.CanPut(value)
  {
    hide RleEncoder.Sound;
    if e.input != [] {
      RepeatIsTrailing(e.input);
    }
  }

  lemma {:induction false} TrailingSuffix(a: seq<nat>, b: seq<nat>, v: nat)
    ensures Trailing(b, v) <= Trailing(a + b, v)
  {
    if b != [] {
      assert (a + b)[..|a + b| - 1] == a + b[..|b| - 1];
      TrailingSuffix(a, b[..|b| - 1], v);
    }
  }

  lemma {:induction false} RunsFitSuffix(a: seq<nat>, b: seq<nat>)
    requires RunsFit(a + b)
    ensures RunsFit(b)
  {
    hide Trailing;
    forall n | 0 <= n < |b| ensures Trailing(b[..n], b[n]) < MAX_REPEAT {
      assert (a + b)[..|a| + n] == a + b[..n] && (a + b)[|a| + n] == b[n];
      TrailingSuffix(a, b[..n], b[n]);
    }
  }

  lemma {:induction false} AllReadableAppend(a: seq<Run>, b: seq<Run>)
    ensures AllReadable(a + b) <==> AllReadable(a) && AllReadable(b)
  {
    assert forall i :: 0 <= i < |a| ==> (a + b)[i] == a[i];
    assert forall i :: 0 <= i < |b| ==> (a + b)[|a| + i] == b[i];
  }

  class RleBuilder {
    var buffer_offset: nat
    var buffer: array<bool>
    var buffer_size: nat  // in bytes
    const bit_width: nat
    var encoder: RleEncoder
    ghost var done: seq<Run>  // the runs of the encoders replaced so far

    ghost predicate Shape()
      reads this, encoder, encoder.bit_writer
    {
      && bit_width <= 64 && buffer.Length == 8 * buffer_size
      && encoder.bit_width == bit_width
      && encoder.bit_writer.buffer == buffer && encoder.bit_writer.base == 8 * buffer_offset
      && encoder.bit_writer.max_bytes == buffer_size - buffer_offset
    }

    ghost predicate Valid()
      reads this, encoder, encoder.bit_writer, buffer
    {
      && Shape() && encoder.Valid()
      && MinBufferSize(bit_width) <= buffer_size - buffer_offset
      && AllValid(done, bit_width) && (RunsFit(Input()) ==> AllReadable(done))
      && buffer[..8 * buffer_offset] == Serialize(done, bit_width)
    }

    /** Every value put since the builder was made or cleared. */
    ghost function Input(): seq<nat>
      reads this, encoder
    {
      Expand(done) + encoder.input
    }

    constructor (bit_width: nat)
      requires bit_width <= 64
      ensures Valid() && Input() == []
      ensures this.bit_width == bit_width
      ensures fresh(buffer) && fresh(encoder) && fresh(encoder.bit_writer)
    {
      hide Serialize, Expand, MinBufferSize, AllValid, AllReadable, RunsFit, RleEncoder.Valid;
      NothingDone(bit_width);
      var size := MinBufferSize(bit_width);
      var memory := new bool[8 * size];
      this.bit_width := bit_width;
      buffer := memory;
      buffer_size := size;
      buffer_offset := 0;
      encoder := new RleEncoder(memory, 0, size, bit_width);
      done := [];
    }

    /** Take one more value; the buffer grows when it has to. */
    method Put(value: nat)
      requires Valid() && value < Pow2(bit_width) && encoder.CanPut(value)
      modifies this, encoder, encoder.bit_writer, buffer
      ensures Valid() && Input() == old(Input()) + [value]
      ensures encoder == old(encoder) || fresh(encoder)
      ensures encoder.bit_writer == old(encoder.bit_writer) || fresh(encoder.bit_writer)
      ensures buffer == old(buffer) || fresh(buffer)
    {
      hide Serialize, Expand, Pow2, MinBufferSize, AllValid, RleEncoder.Valid, AllReadable, RunsFit, Trailing;
      var ok := PutOnce(value);
      while !ok
        invariant Valid() && (!ok ==> encoder.CanPut(value))
        invariant encoder == old(encoder) || fresh(encoder)
        invariant encoder.bit_writer == old(encoder.bit_writer) || fresh(encoder.bit_writer)
        invariant buffer == old(buffer) || fresh(buffer)
        invariant Input() == old(Input()) + (if ok then [value] else [])
        invariant !ok ==> encoder.buffer_full
        decreases !ok, encoder.buffer_full
      {
        Grow();
        NoneTrailing(value);
        TrailingCanPut(encoder, value);
        ok := PutOnce(value);
      }
    }

    method PutOnce(value: nat) returns (ok: bool)
      requires Valid() && value < Pow2(bit_width) && encoder.CanPut(value)
      modifies encoder, encoder.bit_writer, buffer
      ensures Valid() && ok == !old(encoder.buffer_full)
      ensures ok ==> Input() == old(Input()) + [value]
      ensures !ok ==> Input() == old(Input()) && encoder.CanPut(value) && encoder.buffer_full
    {
      hide Serialize, Expand, Pow2, MinBufferSize, AllValid, RleEncoder.Valid, AllReadable, RunsFit;
      RunsFitBefore(Input(), value);
      ok := encoder.Put(value);
      if ok {
        Associate(Expand(done), old(encoder.input), [value]);
      }
    }

    /** Flush, double the buffer and start a new encoder behind the bytes written. */
    method Grow()
      requires Valid() && encoder.buffer_full
      modifies this, encoder, encoder.bit_writer, buffer
      ensures Valid() && Input() == old(Input())
      ensures fresh(encoder) && fresh(encoder.bit_writer) && fresh(buffer)
      ensures !encoder.buffer_full && encoder.input == []
    {
      hide Serialize, Expand, Pow2, MinBufferSize, AllValid, PaddedBy, Repeat, AllReadable, RunsFit;
      ghost var padding;
      var len;
      len, padding := FlushEncoder();
      buffer_offset := buffer_offset + len;
      done := done + encoder.runs;
      Restart();
    }

    method Restart()
      requires bit_width <= 64 && buffer.Length == 8 * buffer_size && buffer_offset <= buffer_size
      requires buffer[..8 * buffer_offset] == Serialize(done, bit_width) && AllValid(done, bit_width)
      requires MinBufferSize(bit_width) <= buffer_size && (RunsFit(Expand(done)) ==> AllReadable(done))
      modifies this
      ensures Valid() && Input() == Expand(done) && done == old(done)
      ensures fresh(encoder) && fresh(encoder.bit_writer) && fresh(buffer)
      ensures !encoder.buffer_full && encoder.input == []
    {
      hide Serialize, Expand, Pow2, MinBufferSize, AllValid, RleEncoder.Valid, AllReadable, RunsFit;
      Resize();
      StartEncoder();
      NothingPut(Expand(done));
    }

    method StartEncoder()
      requires bit_width <= 64 && buffer.Length == 8 * buffer_size
      requires MinBufferSize(bit_width) <= buffer_size - buffer_offset
      requires buffer[..8 * buffer_offset] == Serialize(done, bit_width) && AllValid(done, bit_width)
      requires RunsFit(Expand(done)) ==> AllReadable(done)
      modifies `encoder
      ensures Valid() && fresh(encoder) && fresh(encoder.bit_writer)
      ensures !encoder.buffer_full && encoder.input == []
    {
      hide Serialize, Expand, Pow2, MinBufferSize, AllValid, RleEncoder.Valid, AllReadable, RunsFit;
      NothingPut(Expand(done));
      encoder := new RleEncoder(buffer, 8 * buffer_offset, buffer_size - buffer_offset, bit_width);
    }

    /** Flush the encoder; the number of bytes it has written, behind those of the earlier ones. */
    method FlushEncoder() returns (len: nat, ghost padding: nat)
      requires Valid()
      modifies encoder, encoder.bit_writer, buffer
      ensures buffer_offset + len <= buffer_size
      ensures var all := done + encoder.runs;
        && AllValid(all, bit_width)
        && buffer[..8 * (buffer_offset + len)] == Serialize(all, bit_width)
        && PaddedBy(Expand(all), old(Input()), padding)
        && (old(encoder.PureRepeat()) ==> Expand(all) == old(Input()))
        && (RunsFit(old(Input())) ==> AllReadable(all))
    {
      hide Serialize, Expand, Pow2, MinBufferSize, AllValid, Repeat, AllReadable, RunsFit, LongRun, Decode, RleEncoder.Valid;
      ShortRuns();
      ghost var base := 8 * buffer_offset;
      len := encoder.Flush();
      padding :| Expand(encoder.runs) == encoder.input + Repeat(0, padding) && padding < 8;
      SerializeAppend(done, encoder.runs, bit_width);
      AllValidAppend(done, encoder.runs, bit_width);
      AllReadableAppend(done, encoder.runs);
      SliceParts(buffer, base, base + 8 * len);
      Associate(Expand(done), encoder.input, Repeat(0, padding));
    }

    lemma {:induction false} ShortRuns()
      ensures RunsFit(Input()) ==> !LongRun(encoder.input)
    {
      hide RunsFit, LongRun;
      if RunsFit(Input()) {
        RunsFitSuffix(Expand(done), encoder.input);
        RunsFitIsNotLong(encoder.input);
      }
    }

    /** Double the buffer, keeping its contents. */
    method Resize()
      requires buffer.Length == 8 * buffer_size && buffer_offset <= buffer_size
      modifies `buffer, `buffer_size
      ensures fresh(buffer) && buffer_size == 2 * old(buffer_size) && buffer.Length == 8 * buffer_size
      ensures buffer[..8 * buffer_offset] == old(buffer[..8 * buffer_offset])
    {
      var bigger := new bool[16 * buffer_size];
      forall i | 0 <= i < 8 * buffer_size {
        bigger[i] := buffer[i];
      }
      assert bigger[..8 * buffer_offset] == buffer[..8 * buffer_offset];
      buffer := bigger;
      buffer_size := buffer_size * 2;
    }

    /** Flush and show the bytes: they denote every value put, up to zero padding at the end,
        exactly if no run is too long to be read; and none is, if no value comes too often. */
    method View() returns (view: BitString, len: nat, ghost runs: seq<Run>, ghost padding: nat)
      requires Valid()
      modifies encoder, encoder.bit_writer, buffer
      ensures |view| == 8 * len <= 8 * buffer_size
      ensures AllValid(runs, bit_width) && view == Serialize(runs, bit_width)
      ensures PaddedBy(Expand(runs), old(Input()), padding)
      ensures old(Input()) <= Decode(view, bit_width) <==> AllReadable(runs)
      ensures RunsFit(old(Input())) ==> AllReadable(runs)
    {
      hide Serialize, Expand, Decode, Pow2, MinBufferSize, AllValid, Repeat, AllReadable, RunsFit;
      ghost var input := Input();
      len, padding := FlushEncoder();
      len := buffer_offset + len;
      view := buffer[..8 * len];
      runs := done + encoder.runs;
      ReadBackIffReadable(runs, bit_width, input, padding);
    }

    /** Forget everything put so far. */
    method Clear()
      requires bit_width <= 64
      modifies this
      ensures Valid() && Input() == []
      ensures fresh(buffer) && fresh(encoder) && fresh(encoder.bit_writer)
      ensures encoder.input == []
    {
      hide Serialize, Expand, MinBufferSize, AllValid, AllReadable, RunsFit, RleEncoder.Valid;
      NothingDone(bit_width);
      buffer_size := MinBufferSize(bit_width);
      buffer := new bool[8 * buffer_size];
      buffer_offset := 0;
      encoder := new RleEncoder(buffer, 0, buffer_size, bit_width);
      done := [];
    }
  }

  lemma {:induction false} NothingDone(w: nat)
    ensures Serialize([], w) == [] && Expand([]) == [] && AllValid([], w) && AllReadable([])
  {
  }

  lemma {:induction false} NoneTrailing(v: nat)
    ensures Trailing([], v) == 0
  {
  }

  lemma {:induction false} NothingPut(values: seq<nat>)
    ensures values + [] == values
  {
  }

  lemma {:induction false} AllValidAppend(a: seq<Run>, b: seq<Run>, w: nat)
    requires AllValid(a, w) && AllValid(b, w)
    ensures AllValid(a + b, w)
  {
  }

  lemma {:induction false} SliceParts(a: array<bool>, i: nat, j: nat)
    requires i <= j <= a.Length
    ensures a[..i] + a[i..j] == a[..j]
  {
  }

  // ----- Round trips -----

  /** Put values one after another. */
  method PutAll(b: RleBuilder, values: seq<nat>)
    requires b.Valid() && AllBelow(values, Pow2(b.bit_width))
    requires RunsFit(b.Input() + values)
    modifies b, b.encoder, b.encoder.bit_writer, b.buffer
    ensures b.Valid() && b.Input() == old(b.Input()) + values
    ensures b.encoder == old(b.encoder) || fresh(b.encoder)
    ensures b.encoder.bit_writer == old(b.encoder.bit_writer) || fresh(b.encoder.bit_writer)
    ensures b.buffer == old(b.buffer) || fresh(b.buffer)
  {
    hide Serialize, Expand, Pow2, MinBufferSize, AllValid, Decode, Repeat, RunsFit, RleBuilder.Valid;
    ghost var before := b.Input();
    assert before + values[..0] == before;
    for i := 0 to |values|
      invariant b.Valid() && b.Input() == before + values[..i]
      invariant b.encoder == old(b.encoder) || fresh(b.encoder)
      invariant b.encoder.bit_writer == old(b.encoder.bit_writer) || fresh(b.encoder.bit_writer)
      invariant b.buffer == old(b.buffer) || fresh(b.buffer)
    {
      PutNext(b, values, i, before);
    }
    assert values[..|values|] == values;
  }

  method PutNext(b: RleBuilder, values: seq<nat>, i: nat, ghost before: seq<nat>)
    requires b.Valid() && i < |values| && values[i] < Pow2(b.bit_width)
    requires b.Input() == before + values[..i] && RunsFit(before + values)
    modifies b, b.encoder, b.encoder.bit_writer, b.buffer
    ensures b.Valid() && b.Input() == before + values[..i + 1]
    ensures b.encoder == old(b.encoder) || fresh(b.encoder)
    ensures b.encoder.bit_writer == old(b.encoder.bit_writer) || fresh(b.encoder.bit_writer)
    ensures b.buffer == old(b.buffer) || fresh(b.buffer)
  {
    hide Serialize, Expand, Pow2, MinBufferSize, AllValid, Decode, Repeat, AllReadable, RleEncoder.Valid;
    TrailingWithin(before, values, i);
    TrailingSuffix(Expand(b.done), b.encoder.input, values[i]);
    TrailingCanPut(b.encoder, values[i]);
    b.Put(values[i]);
    assert values[..i + 1] == values[..i] + [values[i]];
    Associate(before, values[..i], [values[i]]);
  }

  lemma {:induction false} TrailingWithin(before: seq<nat>, values: seq<nat>, i: nat)
    requires RunsFit(before + values) && i < |values|
    ensures Trailing(before + values[..i], values[i]) < MAX_REPEAT
  {
    hide Trailing;
    var all := before + values;
    assert all[..|before| + i] == before + values[..i] && all[|before| + i] == values[i];
  }

  /** Read a stream back in the given batches. */
  method ReadBatches(d: RleDecoder, batches: seq<nat>, ghost values: seq<nat>) returns (read: seq<nat>)
    requires d.Valid() && d.bit_width <= 64 && values <= d.Pending() && Total(batches) <= |values|
    modifies d, d.bit_reader
    ensures read == values[..Total(batches)]
  {
    hide Decode, DecodeLiterals;
    read := [];
    ghost var pending := d.Pending();
    for i := 0 to |batches|
      invariant d.Valid() && d.bit_width == old(d.bit_width)
      invariant |read| + Total(batches[i..]) == Total(batches)
      invariant pending == read + d.Pending()
    {
      TotalAt(batches, i);
      var out := ReadBatch(d, batches[i]);
      Associate(read, out, d.Pending());
      read := read + out;
    }
  }

  method ReadBatch(d: RleDecoder, size: nat) returns (read: seq<nat>)
    requires d.Valid() && d.bit_width <= 64 && size <= |d.Pending()|
    modifies d, d.bit_reader
    ensures d.Valid() && |read| == size && old(d.Pending()) == read + d.Pending()
    ensures d.bit_width == old(d.bit_width)
  {
    hide Decode, DecodeLiterals;
    var out := new nat[size];
    var n := d.GetBatch(out, size, 8);
    read := out[..];
    assert out[..size] == out[..];
  }

  function Total(batches: seq<nat>): nat {
    if batches == [] then 0 else batches[0] + Total(batches[1..])
  }

  lemma {:induction false} TotalAt(batches: seq<nat>, i: nat)
    requires i < |batches|
    ensures Total(batches[i..]) == batches[i] + Total(batches[i + 1..])
  {
    DropDrop(batches, i, 1);
  }

  /** The bytes a fresh builder makes of `values`. */
  method Encode(values: seq<nat>, bit_width: nat) returns (view: BitString, len: nat, ghost runs: seq<Run>)
    requires bit_width <= 64 && AllBelow(values, Pow2(bit_width)) && RunsFit(values)
    ensures |view| == 8 * len && values <= Decode(view, bit_width)
    ensures AllValid(runs, bit_width) && view == Serialize(runs, bit_width)
    ensures exists padding :: PaddedBy(Expand(runs), values, padding)
  {
    hide Serialize, Expand, Pow2, MinBufferSize, Decode, AllValid, AllBelow, PaddedBy, RunsFit, AllReadable;
    var b := new RleBuilder(bit_width);
    assert [] + values == values;
    PutAll(b, values);
    assert b.Input() == values;
    ghost var padding;
    view, len, runs, padding := b.View();
  }

  /** Whatever is put through a growing encoder, and however it is read in batches, comes back. */
  method RoundTrip(values: seq<nat>, bit_width: nat, batches: seq<nat>) returns (read: seq<nat>)
    requires bit_width <= 64 && AllBelow(values, Pow2(bit_width)) && RunsFit(values)
    requires Total(batches) <= |values|
    ensures read == values[..Total(batches)]
  {
    hide Serialize, Expand, Pow2, MinBufferSize, Decode, RunsFit;
    var view, len;
    ghost var runs;
    view, len, runs := Encode(values, bit_width);
    var d := new RleDecoder(view, len, bit_width);
    read := ReadBatches(d, batches, values);
  }
}
