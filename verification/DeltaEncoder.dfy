/**
The delta encoder. The places that pad the last miniblock are never initialised: they hold any
numbers at all here.
 */
module DeltaEncoding {
  import opened Options
  import opened Bits
  import opened BitWriting
  import opened BitReading
  import opened DeltaFormat

  /** The bytes that a number of the given width takes at most as a VLQ. */
  function MaxVlqBytes(width: nat): nat {
    if width == 32 then 5 else 10
  }

  /** The miniblocks that `n` values need. */
  function MiniCount(n: nat): nat {
    (n + 31) / 32
  }

  /** The bytes of a block of `n` values at most. */
  function MaxBlockSize(n: nat, width: nat): nat {
    MaxVlqBytes(width) + MINIBLOCKS + Span(MiniCount(n), 4 * width)
  }

  /** The first `n` places hold the differences, of which `min` is a lower bound. */
  ghost predicate AreDeltas(deltas: seq<nat>, last: nat, vs: seq<nat>, n: nat, m: nat, min: int)
    requires m > 0
  {
    && n <= |deltas| && n <= |vs|
    && forall i :: 0 <= i < n ==>
      deltas[i] < m && Signed(deltas[i], m) == Deltas(last, vs, m)[i] && min <= Signed(deltas[i], m)
  }

  lemma {:induction false} FirstDelta(deltas: seq<nat>, last: nat, vs: seq<nat>, m: nat)
    requires m > 0 && deltas != [] && vs != [] && deltas[0] == Wrapped(vs[0] - last, m)
    ensures AreDeltas(deltas, last, vs, 1, m, Signed(deltas[0], m))
    ensures Signed(deltas[0], m) == Deltas(last, vs, m)[0]
  {
    hide Wrapped, Signed;
  }

  lemma {:induction false} NextDelta(before: seq<nat>, deltas: seq<nat>, last: nat, vs: seq<nat>, i: nat, m: nat, was: int, min: int)
    requires m > 0 && 0 < i < |deltas| && i < |vs| && AreDeltas(before, last, vs, i, m, was)
    requires deltas[i] == Wrapped(vs[i] as int - vs[i - 1], m) && |before| == |deltas| && before[..i] == deltas[..i]
    requires min <= was && min <= Signed(deltas[i], m)
    ensures AreDeltas(deltas, last, vs, i + 1, m, min) && Signed(deltas[i], m) == Deltas(last, vs, m)[i]
  {
    hide Wrapped, Signed;
    assert forall j :: 0 <= j < i ==> before[..i][j] == deltas[j];
  }

  // ----- Blocks as small as they can be -----

  /** The width is the smallest that holds every difference from `start` on, up to 32 of them, once
      the minimum is taken off. */
  ghost predicate Narrowest(w: nat, differences: seq<int>, min: int, start: nat) {
    && (forall i :: start <= i < start + 32 && i < |differences| ==> differences[i] - min < Pow2(w))
    && (w > 0 ==> exists i :: start <= i < start + 32 && i < |differences| && Pow2(w - 1) <= differences[i] - min)
  }

  /** A block of up to 256 values after `last`: its minimum is the smallest difference, and the
      widths of its eight miniblocks are the smallest. */
  ghost predicate Tight(block: Block, last: nat, m: nat)
    requires m > 0
  {
    var differences := Deltas(last, block.values, m);
    && 0 < |block.values| <= 256 && |block.widths| == 8
    && (forall i :: 0 <= i < |differences| ==> block.min <= differences[i]) && block.min in differences
    && forall mb :: 0 <= mb < 8 ==> Narrowest(block.widths[mb], differences, block.min, 32 * mb)
  }

  ghost predicate AllTight(blocks: seq<Block>, last: nat, m: nat)
    requires m > 0
  {
    blocks == [] || (Tight(blocks[0], last, m) && AllTight(blocks[1..], LastOf(last, blocks[0].values), m))
  }

  lemma {:induction false} TightOneMore(blocks: seq<Block>, block: Block, last: nat, m: nat)
    requires m > 0 && AllTight(blocks, last, m) && Tight(block, LastOf(last, ValuesOf(blocks)), m)
    ensures AllTight(blocks + [block], last, m)
    decreases blocks
  {
    hide Tight;
    if blocks == [] {
      assert blocks + [block] == [block] && [block][1..] == [];
    } else {
      var first, others := blocks[0], blocks[1..];
      assert (blocks + [block])[1..] == others + [block] && (blocks + [block])[0] == first;
      LastOfAppend(last, first.values, ValuesOf(others));
      TightOneMore(others, block, LastOf(last, first.values), m);
    }
  }

  lemma {:induction false} BlockIsTight(
    block: Block, last: nat, before: seq<nat>, deltas: seq<nat>, m: nat, at: nat, max_deltas: seq<nat>)
    requires m > 0 && 0 < |block.values| <= 256 && |block.values| <= |before| && at < |block.values| <= |deltas|
    requires AreDeltas(before, last, block.values, |block.values|, m, block.min)
    requires block.min == Deltas(last, block.values, m)[at]
    requires forall i :: 0 <= i < |block.values| ==> deltas[i] == Signed(before[i], m) - block.min
    requires AreMaxima(max_deltas, deltas, |block.values|)
    requires |block.widths| == 8 && forall mb :: 0 <= mb < 8 ==> block.widths[mb] == BitWidth(max_deltas[mb])
    ensures Tight(block, last, m)
  {
    hide Deltas, Signed, BitWidth, Pow2;
    var n, differences := |block.values|, Deltas(last, block.values, m);
    forall mb | 0 <= mb < 8 ensures Narrowest(block.widths[mb], differences, block.min, 32 * mb) {
      forall i | 32 * mb <= i < 32 * mb + 32 && i < n ensures differences[i] - block.min <= max_deltas[mb] {
        assert i / 32 == mb && deltas[i] == differences[i] - block.min;
      }
      if block.widths[mb] > 0 {
        assert BitWidth(0) == 0 by { ZeroWidth(); }
        var i :| 0 <= i < n && i / 32 == mb && deltas[i] == max_deltas[mb];
        assert deltas[i] == differences[i] - block.min;
      }
    }
  }

  lemma {:induction false} ZeroWidth()
    ensures BitWidth(0) == 0
  {
  }

  lemma {:induction false} NoMaxima(max_deltas: seq<nat>, deltas: seq<nat>)
    requires |max_deltas| == 8 && forall mb :: 0 <= mb < 8 ==> max_deltas[mb] == 0
    ensures AreMaxima(max_deltas, deltas, 0)
  {
  }

  /** The largest difference of each miniblock, or 0 where there is none. */
  ghost predicate AreMaxima(max_deltas: seq<nat>, deltas: seq<nat>, n: nat) {
    && |max_deltas| == 8 && n <= |deltas| && n <= 256
    && (forall i :: 0 <= i < n ==> deltas[i] <= max_deltas[i / 32])
    && forall mb :: 0 <= mb < 8 ==> max_deltas[mb] == 0 || exists i :: 0 <= i < n && i / 32 == mb && deltas[i] == max_deltas[mb]
  }

  lemma {:induction false} NextMaximum(was: seq<nat>, now: seq<nat>, before: seq<nat>, deltas: seq<nat>, n: nat)
    requires AreMaxima(was, before, n) && n < |deltas| == |before| && n < 256 && before[..n] == deltas[..n]
    requires now == was[n / 32 := Max(was[n / 32], deltas[n])]
    ensures AreMaxima(now, deltas, n + 1)
  {
    assert forall i :: 0 <= i < n ==> before[..n][i] == deltas[i];
    forall mb | 0 <= mb < 8
      ensures now[mb] == 0 || exists i :: 0 <= i < n + 1 && i / 32 == mb && deltas[i] == now[mb] {
      if mb == n / 32 && now[mb] == deltas[n] {
      } else if now[mb] != 0 {
        var i :| 0 <= i < n && i / 32 == mb && before[i] == was[mb];
        assert deltas[i] == now[mb];
      }
    }
  }

  lemma {:induction false} SpanOfBytes(n: nat, w: nat)
    ensures Span(n, 8 * w) == 8 * Span(n, w)
  {
    if n > 0 {
      SpanOfBytes(n - 1, w);
    }
  }

  lemma {:induction false} SpanNarrower(n: nat, v: nat, w: nat)
    requires v <= w
    ensures Span(n, v) <= Span(n, w)
  {
    SpanWider(n, v, w - v);
  }

  // ----- Writing a block -----

  method WriteWidths(w: BitWriter, widths: seq<nat>)
    requires w.Valid() && w.Clean() && w.bit_offset == 0
    requires |w.stream| + 8 * |widths| <= 8 * w.max_bytes
    modifies w, w.buffer
    ensures w.Valid() && w.Clean() && w.bit_offset == 0
    ensures w.stream == old(w.stream) + WidthBytes(widths)
  {
    hide ToBits;
    assert widths[..0] == [] && old(w.stream) + [] == old(w.stream);
    for mb := 0 to |widths|
      invariant w.Valid() && w.Clean() && w.bit_offset == 0
      invariant w.stream == old(w.stream) + WidthBytes(widths[..mb])
    {
      assert widths[..mb + 1][..mb] == widths[..mb];
      ToBitsPrefix(widths[mb], 8, 64);
      var ok := w.PutAligned(ToBits(widths[mb], 64), 1);
      Associate(old(w.stream), WidthBytes(widths[..mb]), ToBits(widths[mb], 8));
    }
    assert widths[..|widths|] == widths;
  }

  /** Write the 32 places of a miniblock. Only the first `n - start` of them have been set; the
      bits of the others are whatever they are. */
  method WriteMini(w: BitWriter, deltas: array<nat>, start: nat, n: nat, bit_width: nat) returns (ghost body: BitString)
    requires w.Valid() && w.Clean() && bit_width <= 64
    requires start < n && start + MINI_SIZE <= deltas.Length
    requires forall i :: start <= i < n && i < start + MINI_SIZE ==> deltas[i] < Pow2(bit_width)
    requires |w.stream| + Span(MINI_SIZE, bit_width) <= 8 * w.max_bytes
    modifies w, w.buffer
    ensures w.Valid() && (start + MINI_SIZE <= n ==> w.Clean())
    ensures w.stream == old(w.stream) + body && |body| == Span(MINI_SIZE, bit_width)
    ensures var c := Min(MINI_SIZE, n - start);
      Span(c, bit_width) <= |body| && Unpack(body, bit_width, c) == deltas[start..start + c]
  {
    hide ToBits, Pow2, Unpack, Span, Packed;
    body := [];
    NothingPacked(bit_width);
    assert deltas[start..start] == [];
    for i := start to start + MINI_SIZE
      invariant w.Valid() && (i <= n ==> w.Clean())
      invariant w.stream == old(w.stream) + body && |body| == Span(i - start, bit_width)
      invariant Packed(body, deltas[start..Min(i, n)], bit_width)
    {
      ghost var vs := deltas[start..Min(i, n)];
      ghost var bits := WritePlace(w, deltas[i], bit_width, i - start, i < n);
      PackedNext(body, vs, bits, deltas[i], bit_width, i < n);
      assert i < n ==> deltas[start..i + 1] == vs + [deltas[i]];
      Associate(old(w.stream), body, bits);
      body := body + bits;
    }
    ghost var vs := deltas[start..Min(start + MINI_SIZE, n)];
    forall k | 0 <= k < |vs| ensures vs[k] < Pow2(bit_width) {
      assert vs[k] == deltas[start + k];
    }
    UnpackPacked(body, vs, bit_width);
  }

  method WritePlace(w: BitWriter, v: nat, bit_width: nat, k: nat, used: bool) returns (ghost bits: BitString)
    requires w.Valid() && bit_width <= 64 && k < MINI_SIZE && (used ==> w.Clean() && v < Pow2(bit_width))
    requires |w.stream| - Span(k, bit_width) + Span(MINI_SIZE, bit_width) <= 8 * w.max_bytes
    modifies w, w.buffer
    ensures w.Valid() && w.stream == old(w.stream) + bits && |bits| == bit_width
    ensures used ==> w.Clean() && bits == ToBits(v, bit_width)
    ensures Span(k + 1, bit_width) == Span(k, bit_width) + bit_width
  {
    hide ToBits, Pow2;
    assert Span(k + 1, bit_width) == Span(k, bit_width) + bit_width;
    SpanMonotonic(k + 1, MINI_SIZE, bit_width);
    if used {
      ToBitsFits(v, 64, bit_width);
      ToBitsPrefix(v, bit_width, 64);
    }
    var ok;
    ok, bits := w.PutValue(ToBits(v, 64), bit_width);
    assert ok;
  }

  /** The first values are packed at the front, and so far nothing else is there. */
  ghost predicate Packed(body: BitString, vs: seq<nat>, w: nat) {
    Pack(vs, w) <= body
  }

  lemma {:induction false} NothingPacked(w: nat)
    ensures Packed([], [], w) && Span(0, w) == 0
  {
  }

  lemma {:induction false} PackedNext(body: BitString, vs: seq<nat>, bits: BitString, v: nat, w: nat, used: bool)
    requires Packed(body, vs, w) && (used ==> |body| == Span(|vs|, w) && bits == ToBits(v, w))
    ensures Packed(body + bits, if used then vs + [v] else vs, w)
  {
    hide Pack, ToBits;
    if used {
      PackOne(vs, v, w);
    }
  }

  lemma {:induction false} UnpackPacked(body: BitString, vs: seq<nat>, w: nat)
    requires Packed(body, vs, w) && AllBelow(vs, Pow2(w))
    ensures Span(|vs|, w) <= |body| && Unpack(body, w, |vs|) == vs
  {
    hide Pow2, Pack, Unpack;
    var n := |Pack(vs, w)|;
    assert body == Pack(vs, w) + body[n..];
    UnpackOfPack(vs, w, body[n..]);
  }

  /** The widths of the miniblocks are wide enough for the places that have been set. */
  predicate WideEnough(deltas: seq<nat>, n: nat, widths: seq<nat>, width: nat) {
    && |deltas| == BLOCK_SIZE && n <= BLOCK_SIZE && |widths| == MINIBLOCKS && width <= 64
    && (forall mb :: 0 <= mb < MINIBLOCKS ==> widths[mb] <= width)
    && forall i :: 0 <= i < n ==> deltas[i] < Pow2(widths[i / 32])
  }

  /** Write the miniblocks that `n` values need. */
  method WriteMinis(w: BitWriter, deltas: array<nat>, n: nat, widths: seq<nat>, ghost width: nat) returns (ghost bodies: BitString)
    requires w.Valid() && w.Clean() && 0 < n && WideEnough(deltas[..], n, widths, width)
    requires |w.stream| + Span(MiniCount(n), 32 * width) <= 8 * w.max_bytes
    modifies w, w.buffer
    ensures w.Valid() && w.stream == old(w.stream) + bodies
    ensures |bodies| == MinisBits(widths, MINI_SIZE, n) <= Span(MiniCount(n), 32 * width)
    ensures Minis(bodies, widths, MINI_SIZE, n) == deltas[..n]
  {
    hide Pow2, Span, Minis, MinisBits, BitWriter.Valid, BitWriter.Clean;
    bodies := [];
    MinisNone([], widths, MINI_SIZE);
    ghost var start := w.stream;
    var mb := 0;
    while mb < MINIBLOCKS
      invariant 0 <= mb <= MINIBLOCKS && w.Valid() && w.stream == start + bodies
      invariant var k := Min(32 * mb, n);
        && (32 * mb <= n ==> w.Clean())
        && |bodies| == MinisBits(widths, MINI_SIZE, k) <= Span(Min(mb, MiniCount(n)), 32 * width)
        && Minis(bodies, widths, MINI_SIZE, k) == deltas[..k]
    {
      if 32 * mb >= n {
        break;
      }
      MiniRoom(mb, n, widths[mb], width);
      ghost var body := WriteMini(w, deltas, 32 * mb, n, widths[mb]);
      MinisMore(bodies, body, widths, deltas[..], mb, n);
      Associate(start, bodies, body);
      bodies := bodies + body;
      mb := mb + 1;
    }
  }

  lemma {:induction false} MiniRoom(mb: nat, n: nat, bit_width: nat, width: nat)
    requires 32 * mb < n <= BLOCK_SIZE && bit_width <= width
    ensures mb < MiniCount(n) <= MINIBLOCKS
    ensures Span(mb, 32 * width) + Span(MINI_SIZE, bit_width) <= Span(mb + 1, 32 * width) <= Span(MiniCount(n), 32 * width)
  {
    SpanNarrower(MINI_SIZE, bit_width, width);
    SpanIsProduct(MINI_SIZE, width);
    SpanMonotonic(mb + 1, MiniCount(n), 32 * width);
    assert Span(mb + 1, 32 * width) == Span(mb, 32 * width) + 32 * width;
  }

  lemma {:induction false} MinisMore(bodies: BitString, body: BitString, widths: seq<nat>, deltas: seq<nat>, mb: nat, n: nat)
    requires 32 * mb < n <= |deltas| && mb < |widths| && |body| == Span(MINI_SIZE, widths[mb])
    requires |bodies| == MinisBits(widths, MINI_SIZE, 32 * mb) && Minis(bodies, widths, MINI_SIZE, 32 * mb) == deltas[..32 * mb]
    requires var c := Min(MINI_SIZE, n - 32 * mb);
      Span(c, widths[mb]) <= |body| && Unpack(body, widths[mb], c) == deltas[32 * mb..32 * mb + c]
    ensures var k := Min(32 * (mb + 1), n);
      && MinisBits(widths, MINI_SIZE, k) == |bodies| + |body|
      && Minis(bodies + body, widths, MINI_SIZE, k) == deltas[..k]
  {
    hide Minis, MinisBits, Unpack;
    var c := Min(MINI_SIZE, n - 32 * mb);
    SpanIsProduct(mb, MINI_SIZE);
    MinisAppend(bodies, body, widths, MINI_SIZE, mb, c);
    assert deltas[..32 * mb] + deltas[32 * mb..32 * mb + c] == deltas[..32 * mb + c];
  }

  class DeltaEncoder {
    const width: nat  // 32 or 64 bits
    var total_values: nat
    var first_value: nat
    var last_value: nat
    var unencoded_values: seq<nat>
    var encoded_buffer: BitString
    ghost var blocks: seq<Block>  // the blocks in the buffer
    ghost var input: seq<nat>     // everything put since the last flush

    ghost function M(): (m: nat)
      ensures IsModulus(m)
    {
      Modulus(width)
    }

    /** The buffer holds blocks that denote the values before the unencoded ones. */
    ghost predicate Encoded()
      reads this
    {
      && (width == 32 || width == 64) && first_value < M() && last_value < M()
      && (forall i :: 0 <= i < |unencoded_values| ==> unencoded_values[i] < M())
      && Chained(blocks, first_value, M()) && encoded_buffer == Codes(blocks)
      && last_value == LastOf(first_value, ValuesOf(blocks)) && AllTight(blocks, first_value, M())
    }

    ghost predicate Valid()
      reads this
    {
      Gathered() && total_values == |input|
    }

    /** Full blocks and fewer values than a block make up the input. */
    ghost predicate Gathered()
      reads this
    {
      && Encoded() && Full(blocks) && |unencoded_values| < BLOCK_SIZE
      && (if input == [] then blocks == [] && unencoded_values == [] && first_value == last_value == 0
          else input == [first_value] + (ValuesOf(blocks) + unencoded_values))
    }

    constructor (width: nat)
      requires width == 32 || width == 64
      ensures Valid() && input == [] && this.width == width
    {
      this.width := width;
      total_values, first_value, last_value, unencoded_values, encoded_buffer := 0, 0, 0, [], [];
      blocks, input := [], [];
    }

    method PutBatch(data: seq<nat>)
      requires Valid() && forall i :: 0 <= i < |data| ==> data[i] < M()
      modifies this
      ensures Valid() && input == old(input) + data
    {
      hide AllTight, Chained, Codes, ValuesOf, Full;
      if data == [] {
        return;
      }
      var i := 0;
      if total_values == 0 {
        FirstValue(data[0]);
        i := 1;
      }
      assert data[..i] == if i == 0 then [] else [data[0]];
      while i < |data|
        invariant 0 <= i <= |data| && Gathered() && input != [] && input == old(input) + data[..i]
        invariant total_values == old(total_values)
      {
        PutOne(data[i]);
        assert data[..i + 1] == data[..i] + [data[i]];
        Associate(old(input), data[..i], [data[i]]);
        i := i + 1;
      }
      assert data[..i] == data;
      total_values := total_values + |data|;
    }

    method FirstValue(v: nat)
      requires Gathered() && input == [] && v < M()
      modifies `first_value, `last_value, `input
      ensures Gathered() && input == [v]
    {
      first_value := v;
      last_value := first_value;
      input := [v];
    }

    method PutOne(v: nat)
      requires Gathered() && input != [] && v < M()
      modifies `unencoded_values, `last_value, `encoded_buffer, `blocks, `input
      ensures Gathered() && input == old(input) + [v]
    {
      hide AllTight, Chained, Codes, ValuesOf;
      Associate(ValuesOf(blocks), unencoded_values, [v]);
      Associate([first_value], ValuesOf(blocks) + unencoded_values, [v]);
      unencoded_values := unencoded_values + [v];
      input := input + [v];
      if |unencoded_values| == BLOCK_SIZE {
        ghost var before := blocks;
        FlushBlock();
        Nothing(ValuesOf(blocks));
        assert blocks == before + [blocks[|before|]];
      }
    }

    /** The bytes that the next flush may take. */
    function MaxEncodedBits(): nat
      reads this
    {
      8 * (4 * MaxVlqBytes(width)) + |encoded_buffer| + 8 * MaxBlockSize(|unencoded_values|, width)
    }

    /** Five or ten bytes for each of the four numbers of the header and for a minimum, eight widths, and
        whole miniblocks of 32 values for what has not been encoded. */
    lemma {:induction false} PromisedSize()
      ensures var v := if width == 32 then 5 else 10;
        MaxEncodedBits() == 8 * (5 * v + 8 + 4 * width * ((|unencoded_values| + 31) / 32)) + |encoded_buffer|
    {
      SpanIsProduct(MiniCount(|unencoded_values|), 4 * width);
    }

    /** Hand out a header and the blocks, and start over. By the definition of the format they
        denote the values put, and they take no more than the size promised before. The header
        tells 256 values and 8 miniblocks in a block, the number of values and the first one; all
        blocks are full but the last, and tight. */
    method Flush() returns (view: BitString, ghost written: seq<Block>)
      requires Valid() && |input| < 0x1_0000_0000_0000_0000
      modifies this
      ensures Valid() && input == []
      ensures DeltaDecode(view, width) == Some(old(input))
      ensures |view| <= old(MaxEncodedBits())
      ensures var m, n, first := M(), |old(input)|, if old(input) == [] then 0 else old(input)[0];
        && view == Vlq(256) + Vlq(8) + Vlq(n) + Vlq(ZigZag(Signed(first, m))) + Codes(written)
        && ValuesOf(written) == (if n == 0 then [] else old(input)[1..]) && AllTight(written, first, m)
        && forall i :: 0 <= i < |written| - 1 ==> |written[i].values| == 256
    {
      hide AllTight, Chained, Codes, ValuesOf, MaxBlockSize, DeltaDecode, NumberCodes, Full, Signed, ZigZag, Vlq;
      ghost var before := blocks;
      FlushBlock();
      assert blocks != [] ==> blocks[..|blocks| - 1] <= before;
      FullPrefix(before, blocks);
      NoBlocks();
      view := WithHeader();
      written := blocks;
      total_values, first_value, last_value, encoded_buffer := 0, 0, 0, [];
      blocks, input := [], [];
    }

    /** The whole stream: the header and all blocks. */
    method WithHeader() returns (view: BitString)
      requires Encoded() && total_values < 0x1_0000_0000_0000_0000
      requires if total_values == 0 then blocks == [] else total_values == 1 + |ValuesOf(blocks)|
      requires blocks != [] ==> Full(blocks[..|blocks| - 1])
      ensures DeltaDecode(view, width) == Some(if total_values == 0 then [] else [first_value] + ValuesOf(blocks))
      ensures view == Vlq(256) + Vlq(8) + Vlq(total_values) + Vlq(ZigZag(Signed(first_value, M()))) + Codes(blocks)
      ensures |view| <= 8 * (4 * MaxVlqBytes(width)) + |encoded_buffer|
    {
      hide AllTight, Chained, Codes, ValuesOf, MaxBlockSize, DeltaDecode, NumberCodes, Full, Signed, ZigZag, Vlq;
      var header := WriteHeader(4 * MaxVlqBytes(width) + CeilDiv8(|encoded_buffer|) + MaxBlockSize(0, width));
      DecodesWithHeader(blocks, first_value, total_values, width);
      FourNumbers(256, 8, total_values, ZigZag(Signed(first_value, M())));
      view := header + encoded_buffer;
    }

    /** The header of the stream. */
    method WriteHeader(size: nat) returns (header: BitString)
      requires Encoded() && total_values < 0x1_0000_0000_0000_0000 && size >= 4 * MaxVlqBytes(width)
      ensures header == NumberCodes([BLOCK_SIZE, MINIBLOCKS, total_values, ZigZag(Signed(first_value, M()))])
      ensures |header| <= 8 * (4 * MaxVlqBytes(width))
      ensures |Vlq(total_values)| <= 80 && |Vlq(ZigZag(Signed(first_value, M())))| <= 80
    {
      hide Vlq, ZigZag, Signed, Chained, Codes, ToBits, Nat, Pow2, BitWriter.Valid, BitWriter.Clean, BitWriter.Padding;
      var first := Signed(first_value, Modulus(width));
      HeaderSizes(total_values, first_value, width);
      var sink := new bool[8 * size];
      var w := new BitWriter(sink, 0, size);
      PutNumber(w, BLOCK_SIZE, []);
      PutNumber(w, MINIBLOCKS, Vlq(BLOCK_SIZE));
      PutNumber(w, total_values, Vlq(BLOCK_SIZE) + Vlq(MINIBLOCKS));
      ghost var three := w.stream;
      var ok := w.PutZigZagVlqInt(first);
      assert three + [] == three;
      FourNumbers(BLOCK_SIZE, MINIBLOCKS, total_values, ZigZag(first));
      w.Flush(false);
      var n := w.BytesWritten();
      header := sink[..8 * n];
      assert sink[0..8 * n] == header && w.stream + [] == w.stream;
    }

    /** First pass: the differences, and the smallest of them as signed numbers. */
    method ComputeDeltas(deltas: array<nat>) returns (min_delta: int, ghost at: nat)
      requires Encoded() && 0 < |unencoded_values| <= deltas.Length
      modifies deltas, `last_value
      ensures AreDeltas(deltas[..], old(last_value), unencoded_values, |unencoded_values|, M(), min_delta)
      ensures at < |unencoded_values| && min_delta == Deltas(old(last_value), unencoded_values, M())[at]
      ensures last_value == LastOf(old(last_value), unencoded_values)
    {
      hide Wrapped, Signed, Chained, Codes, ValuesOf, AreDeltas, Deltas;
      var m := Modulus(width);
      ghost var last := last_value;
      deltas[0] := Wrapped(unencoded_values[0] - last_value, m);
      min_delta, at := Signed(deltas[0], m), 0;
      FirstDelta(deltas[..], last, unencoded_values, m);
      last_value := unencoded_values[0];
      for i := 1 to |unencoded_values|
        invariant last_value == unencoded_values[i - 1] && at < i && min_delta == Deltas(last, unencoded_values, m)[at]
        invariant AreDeltas(deltas[..], last, unencoded_values, i, m, min_delta)
      {
        ghost var before, was := deltas[..], min_delta;
        deltas[i] := Wrapped(unencoded_values[i] - last_value, m);
        last_value := unencoded_values[i];
        if Signed(deltas[i], m) < min_delta {
          min_delta, at := Signed(deltas[i], m), i;
        }
        NextDelta(before, deltas[..], last, unencoded_values, i, m, was, min_delta);
      }
    }

    /** Second pass: take the smallest off, and note the largest of every miniblock. */
    method Adjust(deltas: array<nat>, min_delta: int, n: nat) returns (max_deltas: array<nat>)
      requires 0 < n <= BLOCK_SIZE == deltas.Length && 0 <= 2 * min_delta + M()
      requires forall i :: 0 <= i < n ==> deltas[i] < M() && min_delta <= Signed(deltas[i], M())
      modifies deltas
      ensures fresh(max_deltas) && max_deltas.Length == MINIBLOCKS
      ensures forall i :: 0 <= i < n ==> deltas[i] == Signed(old(deltas[i]), M()) - min_delta
      ensures AreMaxima(max_deltas[..], deltas[..], n)
      ensures forall mb :: 0 <= mb < MINIBLOCKS ==> max_deltas[mb] < M()
    {
      hide Wrapped, Signed, AreMaxima;
      var m := Modulus(width);
      max_deltas := new nat[MINIBLOCKS](_ => 0);
      NoMaxima(max_deltas[..], deltas[..]);
      for i := 0 to n
        invariant forall j :: i <= j < n ==> deltas[j] == old(deltas[j])
        invariant forall j :: 0 <= j < i ==> deltas[j] == Signed(old(deltas[j]), m) - min_delta
        invariant AreMaxima(max_deltas[..], deltas[..], i)
        invariant forall mb :: 0 <= mb < MINIBLOCKS ==> max_deltas[mb] < m
      {
        RelativeDelta(deltas[i], min_delta, m);
        ghost var was, before := max_deltas[..], deltas[..];
        deltas[i] := Wrapped(deltas[i] - min_delta, m);
        var miniblock := i / 32;
        max_deltas[miniblock] := Max(max_deltas[miniblock], deltas[i]);
        NextMaximum(was, max_deltas[..], before, deltas[..], i);
      }
    }

    /** Encode the values that have been gathered as one block. */
    method FlushBlock()
      requires Encoded() && |unencoded_values| <= BLOCK_SIZE
      modifies `last_value, `encoded_buffer, `blocks, `unencoded_values
      ensures Encoded() && unencoded_values == [] && ValuesOf(blocks) == old(ValuesOf(blocks)) + old(unencoded_values)
      ensures if old(unencoded_values) == [] then blocks == old(blocks) && encoded_buffer == old(encoded_buffer)
        else
          && |blocks| > 0 && old(blocks) == blocks[..|blocks| - 1]
          && blocks[|blocks| - 1].values == old(unencoded_values)
          && |encoded_buffer| <= |old(encoded_buffer)| + 8 * MaxBlockSize(|old(unencoded_values)|, width)
    {
      hide AllTight, Chained, Codes, ValuesOf, MaxBlockSize, Wrapped, Signed, Deltas, AreDeltas, WideEnough, Minis, MinisBits,
        Vlq, WidthBytes, AreMaxima, BitWidth, Tight, AllTight;
      if unencoded_values == [] {
        Nothing(ValuesOf(blocks));
        return;
      }
      var n := |unencoded_values|;
      ghost var last := last_value;
      var deltas := new nat[BLOCK_SIZE];
      ghost var at;
      var min_delta;
      min_delta, at := ComputeDeltas(deltas);
      DeltaRange(last, unencoded_values, M(), at, width);
      ghost var before := deltas[..];
      DeltasToAdjust(before, last, unencoded_values, M(), min_delta);
      var max_deltas := Adjust(deltas, min_delta, n);
      var bit_widths := BitWidths(max_deltas, deltas, n);
      var data;
      ghost var bodies;
      data, bodies := WriteBlock(deltas, n, bit_widths, min_delta, width);
      ghost var block := Block(min_delta, bit_widths, bodies, unencoded_values);
      BlockDenotes(block, last, before, deltas[..], M(), width);
      BlockIsTight(block, last, before, deltas[..], M(), at, max_deltas[..]);
      TightOneMore(blocks, block, first_value, M());
      ChainedOneMore(blocks, block, first_value, M());
      LastOfAppend(first_value, ValuesOf(blocks), unencoded_values);
      blocks := blocks + [block];
      encoded_buffer := encoded_buffer + data;
      unencoded_values := [];
    }

    method BitWidths(max_deltas: array<nat>, deltas: array<nat>, n: nat) returns (widths: seq<nat>)
      requires width == 32 || width == 64
      requires max_deltas.Length == MINIBLOCKS && deltas.Length == BLOCK_SIZE && AreMaxima(max_deltas[..], deltas[..], n)
      requires forall mb :: 0 <= mb < MINIBLOCKS ==> max_deltas[mb] < M()
      ensures |widths| == 8 && forall mb :: 0 <= mb < 8 ==> widths[mb] == BitWidth(max_deltas[mb])
      ensures WideEnough(deltas[..], n, widths, width)
    {
      hide BitWidth, Pow2;
      widths := [];
      for mb := 0 to MINIBLOCKS
        invariant |widths| == mb
        invariant forall i :: 0 <= i < mb ==> widths[i] == BitWidth(max_deltas[i]) <= width
      {
        Pow2Values();
        BitWidthAtMost(max_deltas[mb], width);
        widths := widths + [BitWidth(max_deltas[mb])];
      }
      forall i | 0 <= i < n ensures deltas[i] < Pow2(widths[i / 32]) {
        assert widths[i / 32] == BitWidth(max_deltas[i / 32]);
      }
    }
  }

  lemma {:induction false} FullPrefix(before: seq<Block>, blocks: seq<Block>)
    requires Full(before) && (blocks != [] ==> blocks[..|blocks| - 1] <= before)
    ensures blocks != [] ==> Full(blocks[..|blocks| - 1])
    ensures forall i :: 0 <= i < |blocks| - 1 ==> |blocks[i].values| == 256
  {
  }

  lemma {:induction false} NoBlocks()
    ensures ValuesOf([]) == [] && Codes([]) == [] && forall last: nat, m: nat :: m > 0 ==> Chained([], last, m)
    ensures Full([]) && forall last: nat, m: nat :: m > 0 ==> AllTight([], last, m)
  {
  }

  method PutNumber(w: BitWriter, n: nat, ghost before: BitString)
    requires w.Valid() && w.bit_offset == 0 && w.stream == before && n < 0x1_0000_0000_0000_0000
    requires |before| + |Vlq(n)| <= 8 * w.max_bytes
    modifies w, w.buffer
    ensures w.Valid() && w.bit_offset == 0 && w.stream == before + Vlq(n)
  {
    hide Vlq, Nat, ToBits, Pow2, BitWriter.Valid, BitWriter.Padding;
    Pow2Values();
    NatOfToBits(n, 64);
    assert before + [] == before;
    var ok := w.PutVlqInt(ToBits(n, 64));
  }

  lemma {:induction false} FourNumbers(a: nat, b: nat, c: nat, d: nat)
    ensures NumberCodes([a, b, c, d]) == Vlq(a) + Vlq(b) + Vlq(c) + Vlq(d)
  {
    hide Vlq;
    assert [a, b, c, d][1..] == [b, c, d] && [b, c, d][1..] == [c, d] && [c, d][1..] == [d] && [d][1..] == [];
    assert NumberCodes([d]) == Vlq(d) + NumberCodes([]);
    assert NumberCodes([c, d]) == Vlq(c) + NumberCodes([d]);
    assert NumberCodes([b, c, d]) == Vlq(b) + NumberCodes([c, d]);
    Associate(Vlq(a), Vlq(b), Vlq(c) + Vlq(d));
    Associate(Vlq(a) + Vlq(b), Vlq(c), Vlq(d));
  }

  lemma {:induction false} HeaderSizes(total: nat, first: nat, width: nat)
    requires (width == 32 || width == 64) && total < 0x1_0000_0000_0000_0000 && first < Modulus(width)
    ensures |Vlq(BLOCK_SIZE)| == 16 && |Vlq(MINIBLOCKS)| == 8 && |Vlq(total)| <= 80
    ensures var v := Signed(first, Modulus(width)); IsInt64(v) && |Vlq(ZigZag(v))| <= 8 * MaxVlqBytes(width)
  {
    hide Vlq, Pow2, Nat, ToBits;
    SmallVlqs();
    Pow2Values();
    Pow2Monotonic(64, 70);
    VlqLength(total, 10);
    VlqOfSigned(Signed(first, Modulus(width)), width);
  }

  /** The smallest difference is a signed number of the width. */
  lemma {:induction false} DeltaRange(last: nat, vs: seq<nat>, m: nat, at: nat, width: nat)
    requires m == Modulus(width) && (width == 32 || width == 64) && at < |vs|
    ensures var min := Deltas(last, vs, m)[at];
      0 <= 2 * min + m && 2 * min < m && IsInt64(min) && |Vlq(ZigZag(min))| <= 8 * MaxVlqBytes(width)
  {
    hide Vlq, Wrapped;
    VlqOfSigned(Deltas(last, vs, m)[at], width);
  }

  lemma {:induction false} VlqOfSigned(v: int, width: nat)
    requires (width == 32 || width == 64) && 0 <= 2 * v + Modulus(width) && 2 * v < Modulus(width)
    ensures IsInt64(v) && |Vlq(ZigZag(v))| <= 8 * MaxVlqBytes(width) <= 80
  {
    hide Vlq, Pow2;
    Pow2Values();
    if width == 32 {
      Pow2Monotonic(32, 35);
      VlqLength(ZigZag(v), 5);
    } else {
      Pow2Monotonic(64, 70);
      VlqLength(ZigZag(v), 10);
    }
  }

  lemma {:induction false} DeltasToAdjust(deltas: seq<nat>, last: nat, vs: seq<nat>, m: nat, min: int)
    requires m > 0 && AreDeltas(deltas, last, vs, |vs|, m, min)
    ensures forall i :: 0 <= i < |vs| ==> deltas[i] < m && min <= Signed(deltas[i], m)
  {
  }

  lemma {:induction false} BlockDenotes(block: Block, last: nat, before: seq<nat>, deltas: seq<nat>, m: nat, width: nat)
    requires IsModulus(m) && last < m && (forall i :: 0 <= i < |block.values| ==> block.values[i] < m)
    requires 0 < |block.values| <= |before| && |Vlq(ZigZag(block.min))| <= 80 && width <= 64
    requires AreDeltas(before, last, block.values, |block.values|, m, block.min)
    requires WideEnough(deltas, |block.values|, block.widths, width)
    requires forall i :: 0 <= i < |block.values| ==> deltas[i] == Signed(before[i], m) - block.min
    requires |block.bodies| == MinisBits(block.widths, MINI_SIZE, |block.values|)
    requires Minis(block.bodies, block.widths, MINI_SIZE, |block.values|) == deltas[..|block.values|]
    ensures block.Denotes(last, m)
  {
    hide Vlq, Minis, MinisBits, Deltas, Signed;
    AccumulateDeltas(last, block.values, block.min, deltas[..|block.values|], m);
  }

  lemma {:induction false} Nothing(vs: seq<nat>)
    ensures vs + [] == vs
  {
  }

  /** The bytes of a block. */
  method WriteBlock(deltas: array<nat>, n: nat, widths: seq<nat>, min_delta: int, width: nat)
    returns (data: BitString, ghost bodies: BitString)
    requires 0 < n && WideEnough(deltas[..], n, widths, width)
    requires IsInt64(min_delta) && |Vlq(ZigZag(min_delta))| <= 8 * MaxVlqBytes(width)
    ensures data == Vlq(ZigZag(min_delta)) + WidthBytes(widths) + bodies
    ensures |bodies| == MinisBits(widths, MINI_SIZE, n) && Minis(bodies, widths, MINI_SIZE, n) == deltas[..n]
    ensures |data| <= 8 * MaxBlockSize(n, width)
  {
    hide Vlq, Minis, MinisBits, WidthBytes, Span, WideEnough, ZigZag, BitWriter.Valid, BitWriter.Clean, BitWriter.Padding;
    var size := MaxBlockSize(n, width);
    SpanOfBytes(MiniCount(n), 4 * width);
    WidthCount(deltas[..], n, widths, width);
    var w := NewBlock(size, min_delta);
    WriteWidths(w, widths);
    bodies := WriteMinis(w, deltas, n, widths, width);
    MinisBytes(widths, n);
    data := BytesOf(w);
  }

  /** A bit writer that has written the minimum of a block. */
  method NewBlock(size: nat, min_delta: int) returns (w: BitWriter)
    requires IsInt64(min_delta) && |Vlq(ZigZag(min_delta))| <= 8 * size
    ensures fresh(w) && fresh(w.buffer) && w.max_bytes == size && w.base == 0
    ensures w.Valid() && w.Clean() && w.bit_offset == 0 && w.stream == Vlq(ZigZag(min_delta))
  {
    hide Vlq, ZigZag, BitWriter.Valid, BitWriter.Clean, BitWriter.Padding;
    var buffer := new bool[8 * size];
    w := new BitWriter(buffer, 0, size);
    var ok := w.PutZigZagVlqInt(min_delta);
    NothingBefore(Vlq(ZigZag(min_delta)));
  }

  /** What has been written, in whole bytes. */
  method BytesOf(w: BitWriter) returns (data: BitString)
    requires w.Valid() && |w.stream| % 8 == 0 && w.base == 0
    modifies w, w.buffer
    ensures data == old(w.stream)
  {
    hide BitWriter.Valid, BitWriter.Padding;
    WholeBytes(w);
    w.Flush(false);
    var n := w.BytesWritten();
    data := w.buffer[..8 * n];
    assert w.buffer[0..8 * n] == data && w.stream + [] == w.stream;
  }

  lemma {:induction false} NothingBefore(b: BitString)
    ensures [] + [] + b == b
  {
  }

  lemma {:induction false} WidthCount(deltas: seq<nat>, n: nat, widths: seq<nat>, width: nat)
    requires WideEnough(deltas, n, widths, width)
    ensures |widths| == MINIBLOCKS
  {
  }

  lemma {:induction false} MinisBytes(widths: seq<nat>, k: nat)
    ensures MinisBits(widths, MINI_SIZE, k) % 8 == 0
    decreases |widths|
  {
    hide Span;
    if k > 0 && widths != [] {
      SpanOfGroups(4, widths[0]);
      MinisBytes(widths[1..], k - Min(k, MINI_SIZE));
    }
  }

  /** At a byte boundary a flush pads nothing. */
  lemma {:induction false} WholeBytes(w: BitWriter)
    requires w.Valid() && |w.stream| % 8 == 0
    ensures w.Padding() == []
  {
    assert w.bit_offset == |w.stream| - 8 * w.byte_offset;
    BytesLess(|w.stream|, w.byte_offset);
  }

  lemma {:induction false} BytesLess(bits: int, n: int)
    ensures (bits - 8 * n) % 8 == bits % 8
  {
  }
}
