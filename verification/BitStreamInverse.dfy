/**
Whatever is written through a bit writer, in any interleaving of bit-packed, byte-aligned,
VLQ and zigzag writes, is read back by the matching getters.
 */
module BitStreamInverse {
  import opened Options
  import opened Bits
  import opened BitWriting
  import opened BitReading

  datatype Op =
    | PackedBits(v: nat, width: nat)
    | AlignedBytes(v: nat, num_bytes: nat)
    | VlqInt(v: nat)
    | ZigZagInt(z: int)
  {
    /** The arguments the writer's methods accept. */
    predicate Valid() {
      match this
      case PackedBits(v, w) => w <= 64 && v < Pow2(w)
      case AlignedBytes(v, n) => n <= 8 && v < Pow2(8 * n)
      case VlqInt(v) => v < Pow2(64)
      case ZigZagInt(z) => IsInt64(z)
    }

    function Value(): int {
      match this
      case PackedBits(v, _) => v
      case AlignedBytes(v, _) => v
      case VlqInt(v) => v
      case ZigZagInt(z) => z
    }

    /** What the operation writes, and whether it starts at a byte boundary. */
    function Code(): BitString {
      match this
      case PackedBits(v, w) => ToBits(v, w)
      case AlignedBytes(v, n) => ToBits(v, 8 * n)
      case VlqInt(v) => Vlq(v)
      case ZigZagInt(z) => Vlq(ZigZag(z))
    }
  }

  function Align(stream: BitString, op: Op): BitString {
    if op.PackedBits? then stream else Pad8(stream)
  }

  function WriteAll(stream: BitString, ops: seq<Op>): BitString
    decreases |ops|
  {
    if ops == [] then stream
    else WriteAll(Align(stream, ops[0]) + ops[0].Code(), ops[1..])
  }

  /** What the getter matching `op` reads at its own alignment: a value and the new position. */
  function FetchAt(buffer: BitString, p: nat, op: Op): Option<(int, nat)> {
    match op
    case PackedBits(_, w) =>
      if p + w <= |buffer| then Some((Nat(buffer[p..p + w]), p + w)) else None
    case AlignedBytes(_, n) =>
      if p + 8 * n <= |buffer| then Some((Nat(buffer[p..p + 8 * n]), p + 8 * n)) else None
    case _ =>
      if p > |buffer| then None else
        match VlqGroups(buffer[p..], 10)
        case None => None
        case Some(g) =>
          var u := VlqValue(g, 64);
          Some((if op.VlqInt? then u else UnZigZag(u), p + VlqBits(g)))
  }

  function Fetch(buffer: BitString, pos: nat, op: Op): Option<(int, nat)> {
    FetchAt(buffer, if op.PackedBits? then pos else 8 * CeilDiv8(pos), op)
  }

  function ReadAll(buffer: BitString, pos: nat, ops: seq<Op>): Option<seq<int>>
    decreases |ops|
  {
    if ops == [] then Some([])
    else
      match Fetch(buffer, pos, ops[0])
      case None => None
      case Some((v, next)) =>
        match ReadAll(buffer, next, ops[1..])
        case None => None
        case Some(vs) => Some([v] + vs)
  }

  function Values(ops: seq<Op>): seq<int> {
    if ops == [] then [] else [ops[0].Value()] + Values(ops[1..])
  }

  /** A full-range VLQ or zigzag takes at most ten bytes. */
  lemma {:induction false} AtMostTenBytes(n: nat)
    requires n < Pow2(64)
    ensures |Vlq(n)| <= 80
  {
    Pow2Monotonic(64, 70);
    VlqLength(n, 10);
  }

  /** The code of an operation, found at position `at`, reads back as its value. */
  lemma {:induction false} FetchCode(buffer: BitString, at: nat, op: Op, rest: BitString)
    requires op.Valid() && at <= |buffer| && buffer[at..] == op.Code() + rest
    ensures FetchAt(buffer, at, op) == Some((op.Value(), at + |op.Code()|))
  {
    hide ToBits, Nat, Pow2, Vlq, VlqGroups;
    match op
    case PackedBits(v, w) =>
      CodeInPlace(buffer, at, op.Code(), rest);
      NatOfToBits(v, w);
    case AlignedBytes(v, n) =>
      CodeInPlace(buffer, at, op.Code(), rest);
      NatOfToBits(v, 8 * n);
    case VlqInt(v) =>
      FetchVlq(v, buffer[at..], rest);
    case ZigZagInt(z) =>
      ZigZagWordIsZigZag(z);
      FetchVlq(ZigZag(z), buffer[at..], rest);
      ZigZagRoundTrip(z);
  }

  lemma {:induction false} CodeInPlace(buffer: BitString, at: nat, code: BitString, rest: BitString)
    requires at <= |buffer| && buffer[at..] == code + rest
    ensures at + |code| <= |buffer| && buffer[at..at + |code|] == code
  {
    Parts(code, rest);
    TakeOfDrop(buffer, at, |code|);
  }

  lemma {:induction false} FetchVlq(n: nat, tail: BitString, rest: BitString)
    requires n < Pow2(64) && tail == Vlq(n) + rest
    ensures var r := VlqGroups(tail, 10);
      r.Some? && VlqBits(r.value) == |Vlq(n)| && VlqValue(r.value, 64) == n
  {
    AtMostTenBytes(n);
    VlqRoundTrip(n, 10, rest);
    var g := VlqGroups(tail, 10).value;
    ValueFits(g, 64);
  }

  /** The stream so far is a prefix of everything written. */
  lemma {:induction false} WriteAllExtends(stream: BitString, ops: seq<Op>)
    ensures stream <= WriteAll(stream, ops)
    decreases |ops|
  {
    if ops != [] {
      var next := Align(stream, ops[0]) + ops[0].Code();
      WriteAllExtends(next, ops[1..]);
      assert stream <= Align(stream, ops[0]) <= next <= WriteAll(next, ops[1..]);
    }
  }

  /** Reading inverts writing, whatever follows in the buffer. */
  lemma {:induction false} ReadInvertsWrite(stream: BitString, ops: seq<Op>, rest: BitString)
    requires forall i :: 0 <= i < |ops| ==> ops[i].Valid()
    ensures ReadAll(WriteAll(stream, ops) + rest, |stream|, ops) == Some(Values(ops))
    decreases |ops|
  {
    hide ToBits, Nat, Pow2, Vlq, FetchAt, Pad8;
    if ops != [] {
      var before, code := Align(stream, ops[0]), ops[0].Code();
      FirstCode(before, code, ops[1..], rest);
      var buffer := WriteAll(stream, ops) + rest;
      FetchCode(buffer, |before|, ops[0], buffer[|before + code|..]);
      ReadInvertsWrite(before + code, ops[1..], rest);
      assert |before + code| == |before| + |code|;
    }
  }

  lemma {:induction false} FirstCode(before: BitString, code: BitString, ops: seq<Op>, rest: BitString)
    ensures var buffer := WriteAll(before + code, ops) + rest;
      && |before + code| <= |buffer|
      && buffer[|before|..] == code + buffer[|before + code|..]
  {
    hide WriteAll;
    WriteAllExtends(before + code, ops);
    var all := WriteAll(before + code, ops);
    var more := all[|before + code|..];
    assert all == (before + code) + more;
    Associate(before + code, more, rest);
    Associate(before, code, more + rest);
    Parts(before, code + (more + rest));
    Parts(before + code, more + rest);
  }

  method WritePacked(w: BitWriter, v: nat, width: nat) returns (ok: bool)
    requires w.Valid() && w.Clean() && width <= 64 && v < Pow2(width)
    modifies w, w.buffer
    ensures w.Valid() && w.buffer[..w.base] == old(w.buffer[..w.base])
    ensures ok == (|old(w.stream)| + width <= 8 * w.max_bytes)
    ensures ok ==> w.Clean() && w.stream == old(w.stream) + ToBits(v, width)
  {
    hide ToBits, Pow2;
    Pow2Monotonic(width, 64);
    ToBitsFits(v, 64, width);
    ToBitsPrefix(v, width, 64);
    ghost var bits;
    ok, bits := w.PutValue(ToBits(v, 64), width);
  }

  lemma {:induction false} PaddedStream(w: BitWriter)
    requires w.Valid() && w.Clean()
    ensures w.stream + w.Padding() == Pad8(w.stream)
  {
    BytesAndBits(w.byte_offset, w.bit_offset);
  }

  method WriteOp(w: BitWriter, op: Op) returns (ok: bool)
    requires w.Valid() && w.Clean() && op.Valid()
    modifies w, w.buffer
    ensures w.Valid() && w.buffer[..w.base] == old(w.buffer[..w.base])
    ensures ok == (|Align(old(w.stream), op)| + |op.Code()| <= 8 * w.max_bytes)
    ensures ok ==> w.Clean() && w.stream == Align(old(w.stream), op) + op.Code()
  {
    hide ToBits, Nat, Pow2, Vlq, ZigZag, Pad8, BitWriter.Valid, BitWriter.Clean, BitWriter.Padding;
    Pow2Values();
    PaddedStream(w);
    match op
    case PackedBits(v, width) =>
      ok := WritePacked(w, v, width);
    case AlignedBytes(v, n) =>
      ToBitsPrefix(v, 8 * n, 64);
      ok := w.PutAligned(ToBits(v, 64), n);
    case VlqInt(v) =>
      NatOfToBits(v, 64);
      ok := w.PutVlqInt(ToBits(v, 64));
    case ZigZagInt(z) =>
      ok := w.PutZigZagVlqInt(z);
  }

  method ReadOp(r: BitReader, op: Op) returns (v: Option<int>)
    requires r.Valid() && op.Valid()
    modifies r
    ensures r.Valid() && r.buffer == old(r.buffer)
    ensures var f := Fetch(r.buffer, old(r.Pos()), op);
      f.Some? ==> v == Some(f.value.0) && r.Pos() == f.value.1
  {
    hide Unpack, Nat, VlqGroups, UnZigZag;
    match op
    case PackedBits(_, width) =>
      var out := new nat[1];
      var n := r.GetBatch(width, out, 0, 1, 8);
      v := if n == 1 then Some(out[0]) else None;
      OneValue(r.buffer, old(r.Pos()), width);
      assert n == 1 ==> out[0..1] == [out[0]];
    case AlignedBytes(_, n) =>
      var ok, bits := r.GetAligned(n, 8);
      v := if ok then Some(Nat(bits)) else None;
    case VlqInt(_) =>
      var ok, bits := r.GetVlqInt(64, 10);
      v := if ok then Some(Nat(bits)) else None;
    case ZigZagInt(_) =>
      var ok, z := r.GetZigZagVlqInt();
      v := if ok then Some(z) else None;
  }

  lemma {:induction false} OneValue(buffer: BitString, pos: nat, w: nat)
    requires pos <= |buffer|
    ensures Available(1, w, |buffer[pos..]|) == if pos + w <= |buffer| then 1 else 0
    ensures Span(0, w) == 0 && Span(1, w) == w
    ensures pos + w <= |buffer| ==> Unpack(buffer[pos..], w, 1) == [Nat(buffer[pos..pos + w])]
  {
    if pos + w <= |buffer| {
      SliceOfDrop(buffer, pos, 0, w);
      assert Unpack(buffer[pos..], w, 0) == [];
    }
  }

  /** Flush, and find the stream in memory. */
  method FlushToMemory(w: BitWriter)
    requires w.Valid()
    modifies w, w.buffer
    ensures w.Valid() && w.stream == old(w.stream)
    ensures w.buffer[w.base..w.base + |w.stream|] == w.stream
  {
    w.Flush(false);
    ghost var n := |w.stream| + |w.Padding()|;
    assert w.buffer[w.base..w.base + n][..|w.stream|] == w.stream;
  }

  method WriteOps(w: BitWriter, ops: seq<Op>) returns (ok: bool)
    requires w.Valid() && w.Clean() && forall i :: 0 <= i < |ops| ==> ops[i].Valid()
    modifies w, w.buffer
    ensures w.Valid()
    ensures ok == (|WriteAll(old(w.stream), ops)| <= 8 * w.max_bytes)
    ensures ok ==> w.Clean() && w.stream == WriteAll(old(w.stream), ops)
  {
    ghost var before := w.stream;
    for i := 0 to |ops|
      invariant w.Valid() && w.Clean()
      invariant WriteAll(before, ops) == WriteAll(w.stream, ops[i..])
    {
      WriteAllExtends(Align(w.stream, ops[i]) + ops[i].Code(), ops[i + 1..]);
      ok := WriteOp(w, ops[i]);
      if !ok {
        return;
      }
      DropDrop(ops, i, 1);
    }
    assert ops[|ops|..] == [];
    ok := true;
  }

  method ReadOps(r: BitReader, ops: seq<Op>) returns (values: seq<int>)
    requires r.Valid() && forall i :: 0 <= i < |ops| ==> ops[i].Valid()
    requires ReadAll(r.buffer, r.Pos(), ops).Some?
    modifies r
    ensures r.Valid() && values == ReadAll(old(r.buffer), old(r.Pos()), ops).value
  {
    hide Fetch, BitReader.Valid;
    values := [];
    ghost var all := ReadAll(r.buffer, r.Pos(), ops).value;
    for i := 0 to |ops|
      invariant r.Valid() && r.buffer == old(r.buffer)
      invariant ReadAll(r.buffer, r.Pos(), ops[i..]).Some?
      invariant all == values + ReadAll(r.buffer, r.Pos(), ops[i..]).value
    {
      var v := ReadOp(r, ops[i]);
      values := values + [v.value];
      DropDrop(ops, i, 1);
    }
    assert ops[|ops|..] == [];
  }

  /** Everything one writer puts into a fresh buffer, as the bytes of that buffer. */
  method WriteBuffer(ops: seq<Op>, max_bytes: nat) returns (ok: bool, bytes: BitString)
    requires forall i :: 0 <= i < |ops| ==> ops[i].Valid()
    ensures |bytes| == 8 * max_bytes
    ensures ok == (|WriteAll([], ops)| <= 8 * max_bytes)
    ensures ok ==> WriteAll([], ops) <= bytes
  {
    var memory := new bool[8 * max_bytes];
    var w := new BitWriter(memory, 0, max_bytes);
    ok := WriteOps(w, ops);
    FlushToMemory(w);
    bytes := memory[..];
    assert bytes[..|w.stream|] == memory[0..0 + |w.stream|];
  }

  /** The round trip on the writer and reader themselves, whenever there is room for it. */
  method WriteThenRead(ops: seq<Op>, max_bytes: nat) returns (ok: bool, values: seq<int>)
    requires forall i :: 0 <= i < |ops| ==> ops[i].Valid()
    ensures ok == (|WriteAll([], ops)| <= 8 * max_bytes)
    ensures ok ==> values == Values(ops)
  {
    hide WriteAll, ReadAll, Values, BitReader.Valid;
    var bytes;
    values := [];
    ok, bytes := WriteBuffer(ops, max_bytes);
    if ok {
      ghost var written := WriteAll([], ops);
      ReadInvertsWrite([], ops, bytes[|written|..]);
      assert bytes == written + bytes[|written|..];
      var r := new BitReader(bytes, max_bytes);
      values := ReadOps(r, ops);
    }
  }
}
