/**
The DELTA_BINARY_PACKED format: a decoder written from its definition, and well-formed blocks
with the proof that the decoder takes them apart.
 */
module DeltaFormat {
  import opened Options
  import opened Bits
  import opened BitWriting
  import opened BitReading

  // ----- Arithmetic modulo 2^width -----

  /** The number of values of a machine integer of 32 or 64 bits. */
  function Modulus(width: nat): (m: nat)
    ensures m > 1 && (width == 32 || width == 64 ==> m == Pow2(width))
  {
    Pow2Values();
    if width == 32 then 0x1_0000_0000 else 0x1_0000_0000_0000_0000
  }

  /** The signed value of an unsigned machine integer. */
  function Signed(u: nat, m: nat): int {
    if 2 * u < m then u else u - m
  }

  /** A sum or difference as a machine integer. */
  function Wrapped(x: int, m: nat): (r: nat)
    requires m > 0
    ensures r < m
  {
    x % m
  }

  // ----- The decoder of the format -----

  /** A number in ULEB128 at the start of `b`, and the bits it takes. */
  function ReadVlq(b: BitString): Option<(nat, nat)> {
    match VlqGroups(b, 10)
    case None => None
    case Some(g) => Some((Nat(g), VlqBits(g)))
  }

  /** The first `k` relative deltas of miniblocks of `size` values with the given widths. Only as
      many miniblocks are there as are needed, and what pads the last one is passed over. */
  function Minis(b: BitString, widths: seq<nat>, size: nat, k: nat): seq<nat>
    decreases |widths|
  {
    if k == 0 || widths == [] || |b| < Span(size, widths[0]) then []
    else
      var n := Min(k, size);
      SpanMonotonic(n, size, widths[0]);
      Unpack(b, widths[0], n) + Minis(b[Span(size, widths[0])..], widths[1..], size, k - n)
  }

  /** The bits that the miniblocks of `k` values take. */
  function MinisBits(widths: seq<nat>, size: nat, k: nat): nat
    decreases |widths|
  {
    if k == 0 || widths == [] then 0
    else Span(size, widths[0]) + MinisBits(widths[1..], size, k - Min(k, size))
  }

  /** Each value is the one before plus the minimum plus its relative delta. */
  function Accumulate(last: nat, min: int, deltas: seq<nat>, m: nat): (vs: seq<nat>)
    requires m > 0
    ensures |vs| == |deltas|
    decreases deltas
  {
    if deltas == [] then []
    else
      var v := Wrapped(last + min + deltas[0], m);
      [v] + Accumulate(v, min, deltas[1..], m)
  }

  function LastOf(last: nat, vs: seq<nat>): nat {
    if vs == [] then last else vs[|vs| - 1]
  }

  function Widths(b: BitString, n: nat): (ws: seq<nat>)
    requires 8 * n <= |b|
    ensures |ws| == n
  {
    seq(n, i requires 0 <= i < n => Nat(b[8 * i..8 * i + 8]))
  }

  /** `k` values from blocks of `count` miniblocks of `size` values. */
  function DecodeBlocks(b: BitString, last: nat, count: nat, size: nat, k: nat, m: nat): seq<nat>
    requires m > 0
    decreases k
  {
    if k == 0 || count == 0 || size == 0 then []
    else
      match ReadVlq(b)
      case None => []
      case Some((u, bits)) =>
        if |b| < bits + 8 * count then []
        else
          var rest := b[bits..];
          var widths := Widths(rest, count);
          var n := BlockCount(count, size, k);
          var bodies := rest[8 * count..];
          var vs := Accumulate(last, UnZigZag(u), Minis(bodies, widths, size, n), m);
          if |vs| < n || |bodies| < MinisBits(widths, size, n) then vs
          else vs + DecodeBlocks(bodies[MinisBits(widths, size, n)..], LastOf(last, vs), count, size, k - n, m)
  }

  /** The values of a block: a block full, or what is left. */
  function BlockCount(count: nat, size: nat, k: nat): (n: nat)
    requires count > 0 && size > 0 && k > 0
    ensures 0 < n <= k
  {
    SpanIsProduct(count, size);
    SpanMonotonic(1, count, size);
    Min(k, Span(count, size))
  }

  /** The whole stream: block size, miniblocks in a block, total count, first value, blocks. */
  function DeltaDecode(b: BitString, width: nat): Option<seq<nat>> {
    var m := Modulus(width);
    var h := ReadNumbers(b, 4);
    if h.None? then None
    else
      var (ns, bits) := h.value;
      if ns[1] == 0 || ns[0] % ns[1] != 0 || bits > |b| then None
      else if ns[2] == 0 then Some([])
      else
        var first := Wrapped(UnZigZag(ns[3]), m);
        Some([first] + DecodeBlocks(b[bits..], first, ns[1], ns[0] / ns[1], ns[2] - 1, m))
  }

  /** `n` numbers one after another. */
  function ReadNumbers(b: BitString, n: nat): (r: Option<(seq<nat>, nat)>)
    ensures r.Some? ==> |r.value.0| == n
  {
    if n == 0 then Some(([], 0))
    else
      var first := ReadVlq(b);
      if first.None? || first.value.1 > |b| then None
      else
        var others := ReadNumbers(b[first.value.1..], n - 1);
        if others.None? then None
        else Some(([first.value.0] + others.value.0, first.value.1 + others.value.1))
  }

  // ----- Well-formed blocks -----

  const MINIBLOCKS := 8
  const MINI_SIZE := 32
  const BLOCK_SIZE := 256

  datatype Block = Block(min: int, widths: seq<nat>, bodies: BitString, values: seq<nat>)
  {
    function Code(): BitString {
      Vlq(ZigZag(min)) + WidthBytes(widths) + bodies
    }

    /** After the value `last`, the block denotes its values. */
    predicate Denotes(last: nat, m: nat)
      requires m > 0
    {
      && |Vlq(ZigZag(min))| <= 80 && |widths| == MINIBLOCKS && (forall i :: 0 <= i < MINIBLOCKS ==> widths[i] < 256)
      && 0 < |values| <= BLOCK_SIZE && |bodies| == MinisBits(widths, MINI_SIZE, |values|)
      && values == Accumulate(last, min, Minis(bodies, widths, MINI_SIZE, |values|), m)
    }
  }

  function WidthBytes(widths: seq<nat>): (b: BitString)
    ensures |b| == 8 * |widths|
  {
    if widths == [] then [] else WidthBytes(widths[..|widths| - 1]) + ToBits(widths[|widths| - 1], 8)
  }

  lemma {:induction false} ReadVlqOfVlq(n: nat, rest: BitString)
    requires |Vlq(n)| <= 80
    ensures ReadVlq(Vlq(n) + rest) == Some((n, |Vlq(n)|))
  {
    hide Vlq, Nat, VlqGroups;
    VlqRoundTrip(n, 10, rest);
  }

  lemma {:induction false} WidthsOfBytes(widths: seq<nat>, rest: BitString)
    requires forall i :: 0 <= i < |widths| ==> widths[i] < 256
    ensures Widths(WidthBytes(widths) + rest, |widths|) == widths
  {
    hide Nat, ToBits;
    var b := WidthBytes(widths) + rest;
    if widths != [] {
      var n := |widths| - 1;
      var front, last := widths[..n], ToBits(widths[n], 8);
      WidthsOfBytes(front, last + rest);
      Associate(WidthBytes(front), last, rest);
      assert b[8 * n..8 * n + 8] == last;
      Pow2Values();
      NatOfToBits(widths[n], 8);
      forall i | 0 <= i < n ensures Widths(b, n + 1)[i] == widths[i] {
        assert Widths(b, n)[i] == front[i];
      }
    }
  }

  /** Miniblocks are read from their own bits only. */
  lemma {:induction false} MinisPrefix(b: BitString, tail: BitString, widths: seq<nat>, size: nat, k: nat)
    requires |b| == MinisBits(widths, size, k)
    ensures Minis(b + tail, widths, size, k) == Minis(b, widths, size, k)
    decreases |widths|
  {
    hide Unpack, Span;
    if k > 0 && widths != [] {
      var s, n := Span(size, widths[0]), Min(k, size);
      assert (b + tail)[s..] == b[s..] + tail;
      MinisPrefix(b[s..], tail, widths[1..], size, k - n);
      SpanMonotonic(n, size, widths[0]);
      UnpackPrefix(b, tail, widths[0], n);
    }
  }

  lemma {:induction false} UnpackPrefix(b: BitString, tail: BitString, w: nat, n: nat)
    requires Span(n, w) <= |b|
    ensures Unpack(b + tail, w, n) == Unpack(b, w, n)
  {
    hide Nat;
    if n > 0 {
      UnpackPrefix(b, tail, w, n - 1);
      assert (b + tail)[Span(n - 1, w)..Span(n, w)] == b[Span(n - 1, w)..Span(n, w)];
    }
  }

  /** The decoder takes a block apart and goes on with what follows it. */
  lemma {:induction false} BlockDecodes(block: Block, last: nat, m: nat, tail: BitString, k: nat)
    requires m > 0 && block.Denotes(last, m) && (|block.values| == BLOCK_SIZE || k == 0)
    ensures DecodeBlocks(block.Code() + tail, last, MINIBLOCKS, MINI_SIZE, |block.values| + k, m)
      == block.values + DecodeBlocks(tail, LastOf(last, block.values), MINIBLOCKS, MINI_SIZE, k, m)
  {
    hide Vlq, ReadVlq, Accumulate, Minis, MinisBits, Widths, WidthBytes, ZigZag, UnZigZag, Span;
    var b := block.Code() + tail;
    var header, bytes, bodies := Vlq(ZigZag(block.min)), WidthBytes(block.widths), block.bodies;
    Associate(header, bytes, bodies);
    Associate(header, bytes + bodies, tail);
    Associate(bytes, bodies, tail);
    ReadVlqOfVlq(ZigZag(block.min), bytes + (bodies + tail));
    ZigZagRoundTrip(block.min);
    Parts(header, bytes + (bodies + tail));
    WidthsOfBytes(block.widths, bodies + tail);
    Parts(bytes, bodies + tail);
    Parts(bodies, tail);
    var n := |block.values|;
    MinisPrefix(bodies, tail, block.widths, MINI_SIZE, n);
    SpanIsProduct(MINIBLOCKS, MINI_SIZE);
    assert BlockCount(MINIBLOCKS, MINI_SIZE, n + k) == n;
  }

  // ----- Chains of blocks -----

  function Codes(blocks: seq<Block>): BitString {
    if blocks == [] then [] else blocks[0].Code() + Codes(blocks[1..])
  }

  function ValuesOf(blocks: seq<Block>): seq<nat> {
    if blocks == [] then [] else blocks[0].values + ValuesOf(blocks[1..])
  }

  /** Every block goes on from the last value of the one before. */
  predicate Chained(blocks: seq<Block>, last: nat, m: nat)
    requires m > 0
  {
    blocks == [] || (blocks[0].Denotes(last, m) && Chained(blocks[1..], LastOf(last, blocks[0].values), m))
  }

  predicate Full(blocks: seq<Block>) {
    forall i :: 0 <= i < |blocks| ==> |blocks[i].values| == BLOCK_SIZE
  }

  lemma {:induction false} LastOfAppend(last: nat, a: seq<nat>, b: seq<nat>)
    ensures LastOf(last, a + b) == LastOf(LastOf(last, a), b) && LastOf(last, []) == last
  {
  }

  /** Add a block at the end. */
  lemma {:induction false} ChainedOneMore(blocks: seq<Block>, block: Block, last: nat, m: nat)
    requires m > 0 && Chained(blocks, last, m) && block.Denotes(LastOf(last, ValuesOf(blocks)), m)
    ensures Chained(blocks + [block], last, m)
    ensures Codes(blocks + [block]) == Codes(blocks) + block.Code()
    ensures ValuesOf(blocks + [block]) == ValuesOf(blocks) + block.values
    decreases blocks
  {
    hide Block.Denotes, Block.Code;
    if blocks == [] {
      assert blocks + [block] == [block] && [block][1..] == [];
    } else {
      var first, others := blocks[0], blocks[1..];
      assert (blocks + [block])[1..] == others + [block] && (blocks + [block])[0] == first;
      LastOfAppend(last, first.values, ValuesOf(others));
      ChainedOneMore(others, block, LastOf(last, first.values), m);
      Associate(first.Code(), Codes(others), block.Code());
      Associate(first.values, ValuesOf(others), block.values);
    }
  }

  /** The decoder takes a chain of full blocks apart, and whatever follows, or ends with the last
      block, full or not. */
  lemma {:induction false} ChainDecodes(blocks: seq<Block>, last: nat, m: nat, tail: BitString, k: nat)
    requires m > 0 && Chained(blocks, last, m) && Full(blocks)
    ensures DecodeBlocks(Codes(blocks) + tail, last, MINIBLOCKS, MINI_SIZE, |ValuesOf(blocks)| + k, m)
      == ValuesOf(blocks) + DecodeBlocks(tail, LastOf(last, ValuesOf(blocks)), MINIBLOCKS, MINI_SIZE, k, m)
    decreases blocks
  {
    hide DecodeBlocks;
    if blocks == [] {
      assert Codes(blocks) + tail == tail;
    } else {
      var first, others := blocks[0], blocks[1..];
      ChainDecodes(others, LastOf(last, first.values), m, tail, k);
      BlockDecodes(first, last, m, Codes(others) + tail, |ValuesOf(others)| + k);
      Associate(first.Code(), Codes(others), tail);
      LastOfAppend(last, first.values, ValuesOf(others));
      Associate(first.values, ValuesOf(others),
        DecodeBlocks(tail, LastOf(last, ValuesOf(blocks)), MINIBLOCKS, MINI_SIZE, k, m));
    }
  }

  // ----- What an encoder does, as functions -----

  /** The signed differences of successive values. */
  function Deltas(last: nat, vs: seq<nat>, m: nat): (ds: seq<int>)
    requires m > 0
    ensures |ds| == |vs|
  {
    seq(|vs|, i requires 0 <= i < |vs| => Signed(Wrapped(vs[i] - (if i == 0 then last else vs[i - 1]), m), m))
  }

  predicate IsModulus(m: nat) {
    m == 0x1_0000_0000 || m == 0x1_0000_0000_0000_0000
  }

  lemma {:induction false} WrappedIs(x: int, m: nat, k: int, r: nat)
    requires m > 0 && x == k * m + r && r < m
    ensures Wrapped(x, m) == r
  {
    QuotientUnique(x, m, k, r);
  }

  /** Adding the signed difference gives the value again. */
  lemma {:induction false} DeltaStep(last: nat, v: nat, m: nat)
    requires IsModulus(m) && last < m && v < m
    ensures Wrapped(last + Signed(Wrapped(v - last, m), m), m) == v
  {
    if v >= last {
      WrappedIs(v - last, m, 0, v - last);
    } else {
      WrappedIs(v - last, m, -1, v - last + m);
    }
    var s := last + Signed(Wrapped(v - last, m), m);
    assert s == v || s == v + m || s == v - m;
    WrappedIs(s, m, if s == v then 0 else if s == v + m then 1 else -1, v);
  }

  /** With the minimum taken off, the differences are what the decoder needs. */
  lemma {:induction false} AccumulateDeltas(last: nat, vs: seq<nat>, min: int, deltas: seq<nat>, m: nat)
    requires IsModulus(m) && last < m && (forall i :: 0 <= i < |vs| ==> vs[i] < m)
    requires |deltas| == |vs| && forall i :: 0 <= i < |vs| ==> deltas[i] == Deltas(last, vs, m)[i] - min
    ensures Accumulate(last, min, deltas, m) == vs
    decreases vs
  {
    hide Wrapped, Signed, Deltas;
    if vs != [] {
      DeltaStep(last, vs[0], m);
      DeltasTail(last, vs, m);
      assert last + min + deltas[0] == last + Deltas(last, vs, m)[0];
      assert Wrapped(last + min + deltas[0], m) == vs[0];
      AccumulateDeltas(vs[0], vs[1..], min, deltas[1..], m);
      assert vs == [vs[0]] + vs[1..];
    }
  }

  lemma {:induction false} DeltasTail(last: nat, vs: seq<nat>, m: nat)
    requires m > 0 && vs != []
    ensures Deltas(last, vs, m)[0] == Signed(Wrapped(vs[0] - last, m), m)
    ensures Deltas(vs[0], vs[1..], m) == Deltas(last, vs, m)[1..]
  {
    hide Wrapped, Signed;
  }

  /** Taking off the minimum modulo 2^width is taking it off. */
  lemma {:induction false} RelativeDelta(d: nat, min: int, m: nat)
    requires IsModulus(m) && d < m && min <= Signed(d, m) && 0 <= 2 * min + m
    ensures Wrapped(d - min, m) == Signed(d, m) - min
  {
    var r := Signed(d, m) - min;
    WrappedIs(d - min, m, if 2 * d < m then 0 else 1, r);
  }

  lemma {:induction false} MinisNone(b: BitString, widths: seq<nat>, size: nat)
    ensures Minis(b, widths, size, 0) == [] && MinisBits(widths, size, 0) == 0
  {
  }

  lemma {:induction false} MinisStep(b: BitString, widths: seq<nat>, size: nat, k: nat)
    requires k > 0 && widths != []
    ensures var n := Min(k, size); var s := Span(size, widths[0]);
      && MinisBits(widths, size, k) == s + MinisBits(widths[1..], size, k - n)
      && Span(n, widths[0]) <= s
      && (s <= |b| ==> Minis(b, widths, size, k) == Unpack(b, widths[0], n) + Minis(b[s..], widths[1..], size, k - n))
  {
    hide Unpack;
    SpanMonotonic(Min(k, size), size, widths[0]);
  }

  /** One more miniblock behind full ones. */
  lemma {:induction false} MinisAppend(b: BitString, body: BitString, widths: seq<nat>, size: nat, mb: nat, c: nat)
    requires size > 0 && mb < |widths| && |body| == Span(size, widths[mb]) && 0 < c <= size
    requires |b| == MinisBits(widths, size, Span(mb, size))
    ensures Span(c, widths[mb]) <= |body|
    ensures Minis(b + body, widths, size, Span(mb, size) + c) == Minis(b, widths, size, Span(mb, size)) + Unpack(body, widths[mb], c)
    ensures MinisBits(widths, size, Span(mb, size) + c) == |b| + |body|
    decreases mb
  {
    hide Unpack, Minis, MinisBits;
    SpanMonotonic(c, size, widths[mb]);
    MinisStep(b + body, widths, size, Span(mb, size) + c);
    if mb == 0 {
      MinisNone(b, widths, size);
      assert b == [] && b + body == body;
      MinisNone(body[|body|..], widths[1..], size);
    } else {
      var s, k := Span(size, widths[0]), Span(mb - 1, size);
      assert Span(mb, size) == k + size;
      MinisStep(b, widths, size, Span(mb, size));
      assert (b + body)[s..] == b[s..] + body;
      MinisAppend(b[s..], body, widths[1..], size, mb - 1, c);
      UnpackPrefix(b, body, widths[0], size);
      Associate(Unpack(b, widths[0], size), Minis(b[s..], widths[1..], size, k), Unpack(body, widths[mb], c));
    }
  }

  function NumberCodes(ns: seq<nat>): BitString {
    if ns == [] then [] else Vlq(ns[0]) + NumberCodes(ns[1..])
  }

  lemma {:induction false} ReadNumbersOf(ns: seq<nat>, rest: BitString)
    requires forall i :: 0 <= i < |ns| ==> |Vlq(ns[i])| <= 80
    ensures ReadNumbers(NumberCodes(ns) + rest, |ns|) == Some((ns, |NumberCodes(ns)|))
    decreases ns
  {
    hide Vlq, ReadVlq;
    if ns != [] {
      Associate(Vlq(ns[0]), NumberCodes(ns[1..]), rest);
      ReadVlqOfVlq(ns[0], NumberCodes(ns[1..]) + rest);
      Parts(Vlq(ns[0]), NumberCodes(ns[1..]) + rest);
      ReadNumbersOf(ns[1..], rest);
      assert ns == [ns[0]] + ns[1..];
    }
  }

  /** The last block of a chain goes on from the others. */
  lemma {:induction false} ChainedSplit(blocks: seq<Block>, last: nat, m: nat)
    requires m > 0 && Chained(blocks, last, m) && blocks != []
    ensures var n := |blocks| - 1; var front := blocks[..n];
      && Chained(front, last, m) && blocks[n].Denotes(LastOf(last, ValuesOf(front)), m)
      && Codes(blocks) == Codes(front) + blocks[n].Code() && ValuesOf(blocks) == ValuesOf(front) + blocks[n].values
    decreases blocks
  {
    hide Block.Denotes, Block.Code, LastOf;
    var n := |blocks| - 1;
    var first, others, front := blocks[0], blocks[1..], blocks[..n];
    if n == 0 {
      assert others == [] && front == [];
      LastOfAppend(last, [], []);
      assert Codes(blocks) == first.Code() + Codes([]) && ValuesOf(blocks) == first.values + ValuesOf([]);
    } else {
      ChainedSplit(others, LastOf(last, first.values), m);
      assert front[0] == first && front[1..] == others[..n - 1];
      LastOfAppend(last, first.values, ValuesOf(others[..n - 1]));
      Associate(first.Code(), Codes(others[..n - 1]), blocks[n].Code());
      Associate(first.values, ValuesOf(others[..n - 1]), blocks[n].values);
    }
  }

  /** Blocks of which at most the last one is not full are decoded to their values. */
  lemma {:induction false} StreamDecodes(blocks: seq<Block>, last: nat, m: nat)
    requires m > 0 && Chained(blocks, last, m) && (blocks != [] ==> Full(blocks[..|blocks| - 1]))
    ensures DecodeBlocks(Codes(blocks), last, MINIBLOCKS, MINI_SIZE, |ValuesOf(blocks)|, m) == ValuesOf(blocks)
  {
    hide DecodeBlocks, Chained, Full, Codes, ValuesOf;
    if blocks == [] {
      NothingDecodes(last, m);
    } else {
      var n := |blocks| - 1;
      var front, b := blocks[..n], blocks[n];
      ChainedSplit(blocks, last, m);
      ChainDecodes(front, last, m, b.Code(), |b.values|);
      var before := LastOf(last, ValuesOf(front));
      BlockDecodes(b, before, m, [], 0);
      assert b.Code() + [] == b.Code();
      NothingDecodes(LastOf(before, b.values), m);
      assert b.values + [] == b.values;
    }
  }

  lemma {:induction false} NothingDecodes(last: nat, m: nat)
    requires m > 0
    ensures DecodeBlocks([], last, MINIBLOCKS, MINI_SIZE, 0, m) == [] && Codes([]) == [] && ValuesOf([]) == []
  {
  }

  /** A whole stream with its header. */
  lemma {:induction false} DecodesWithHeader(blocks: seq<Block>, first: nat, total: nat, width: nat)
    requires width == 32 || width == 64
    requires var m := Modulus(width);
      && Chained(blocks, first, m) && (blocks != [] ==> Full(blocks[..|blocks| - 1])) && first < m
      && |Vlq(total)| <= 80 && |Vlq(ZigZag(Signed(first, m)))| <= 80
    requires if total == 0 then blocks == [] else total == 1 + |ValuesOf(blocks)|
    ensures var header := NumberCodes([BLOCK_SIZE, MINIBLOCKS, total, ZigZag(Signed(first, Modulus(width)))]);
      DeltaDecode(header + Codes(blocks), width) == Some(if total == 0 then [] else [first] + ValuesOf(blocks))
  {
    hide Vlq, Chained, Full, Codes, ValuesOf, DecodeBlocks, ReadNumbers, NumberCodes, ZigZag, UnZigZag;
    var m := Modulus(width);
    var zz := ZigZag(Signed(first, m));
    var ns := [BLOCK_SIZE, MINIBLOCKS, total, zz];
    SmallVlqs();
    ReadNumbersOf(ns, Codes(blocks));
    Parts(NumberCodes(ns), Codes(blocks));
    ZigZagRoundTrip(Signed(first, m));
    WrappedIs(Signed(first, m), m, if Signed(first, m) == first then 0 else -1, first);
    StreamDecodes(blocks, first, m);
  }

  lemma {:induction false} SmallVlqs()
    ensures |Vlq(BLOCK_SIZE)| == 16 && |Vlq(MINIBLOCKS)| == 8
  {
    assert |Vlq(2)| == 8;
  }
}
