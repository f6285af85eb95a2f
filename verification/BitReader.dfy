/**
The bit stream reader: single values, byte-aligned values, VLQs, and the batch reader
with its unaligned prologue, its 32-values-at-a-time unpacker and its tail.

`Rest()` is what has not been read yet.
 */
module BitReading {
  import opened Options
  import opened Bits
  import opened BitWriting
  import opened BitPacking

  // ----- What a VLQ getter sees -----

  /** The payload bits of a VLQ of at most `limit` bytes, if its last byte is there. */
  function VlqGroups(b: BitString, limit: nat): (r: Option<BitString>)
    ensures r.Some? ==> 0 < |r.value| <= 7 * limit && |r.value| % 7 == 0
    ensures r.Some? ==> VlqBits(r.value) <= |b|
  {
    if limit == 0 || |b| < 8 then None
    else if !b[7] then Some(b[..7])
    else
      match VlqGroups(b[8..], limit - 1)
      case None => None
      case Some(g) => Some(b[..7] + g)
  }

  /** The bits a VLQ with this payload occupies. */
  function VlqBits(groups: BitString): nat {
    |groups| / 7 * 8
  }

  /** The value of a VLQ read into `width` bits. */
  function VlqValue(groups: BitString, width: nat): nat {
    Nat(Resize(groups, width))
  }

  /** A VLQ reads back as the number written, whatever follows it. */
  lemma {:induction false} VlqRoundTrip(n: nat, limit: nat, rest: BitString)
    requires |Vlq(n)| <= 8 * limit
    ensures var r := VlqGroups(Vlq(n) + rest, limit);
      r.Some? && VlqBits(r.value) == |Vlq(n)| && Nat(r.value) == n
  {
    hide Nat, ToBits, Pow2, VlqByte;
    var b, low := Vlq(n) + rest, ToBits(n % 128, 7);
    VlqByteParts(n);
    if n < 128 {
      assert b[..7] == low;
    } else {
      var tail := Vlq(n / 128) + rest;
      Associate(VlqByte(n), Vlq(n / 128), rest);
      Parts(VlqByte(n), tail);
      VlqRoundTrip(n / 128, limit - 1, rest);
      var g := VlqGroups(tail, limit - 1).value;
      assert b[..7] == low;
      NatAppend(low, g);
    }
  }

  lemma {:induction false} VlqByteParts(n: nat)
    ensures VlqByte(n) == ToBits(n % 128, 7) + [n >= 128]
    ensures Nat(ToBits(n % 128, 7)) == n % 128 && Pow2(7) == 128
  {
    hide ToBits, Nat, Pow2;
    Pow2Values();
    NatOfToBits(n % 128, 7);
    TopBit(n % 128, n >= 128);
  }

  lemma {:induction false} TopBit(low: nat, top: bool)
    requires low < 128
    ensures ToBits(if top then low + 128 else low, 8) == ToBits(low, 7) + [top]
  {
    Pow2Values();
    NatOfToBits(low, 7);
    SevenBitsAndTop(ToBits(low, 7));
  }

  /** `memcpy` of up to eight bytes at `byte_offset` over the word; the rest of it stays. */
  function Load(buffer: BitString, byte_offset: nat, stale: Word): (w: Word)
    requires 8 * byte_offset <= |buffer|
    ensures forall j :: 0 <= j < 64 && 8 * byte_offset + j < |buffer| ==> w[j] == buffer[8 * byte_offset + j]
  {
    if 8 * byte_offset + 64 <= |buffer| then buffer[8 * byte_offset..8 * byte_offset + 64]
    else buffer[8 * byte_offset..] + stale[|buffer| - 8 * byte_offset..]
  }

  /** The part of a value held by the current word. */
  lemma {:induction false} HeldBits(w: Word, offset: nat, n: nat)
    requires offset < 64 && n <= 64
    ensures var v := Shr(TrailingBits(w, offset + n), offset); var held := Min(n, 64 - offset);
      && v[..held] == w[offset..offset + held]
      && Fits(v, held)
  {
  }

  function CrossWord(v: Word, next: Word, held: nat, n: nat): Word
    requires held <= n
  {
    Or(v, Shl(TrailingBits(next, n - held), held))
  }

  /** Adding the part of the value that starts the next word. */
  lemma {:induction false} CrossedBits(v: Word, next: Word, held: nat, n: nat)
    requires 0 < held <= n <= 64 && Fits(v, held)
    ensures var r := CrossWord(v, next, held, n);
      && r[..n] == v[..held] + next[..n - held]
      && Fits(r, n)
  {
  }

  /** Shifting the next seven bits into place extends the payload, truncated to the variable. */
  lemma {:induction false} OrGroup(groups: BitString, seven: BitString, width: nat)
    requires |seven| == 7
    ensures Or(Resize(groups, width), Shl(Resize(seven, width), |groups|)) == Resize(groups + seven, width)
  {
  }

  /** One more byte of a VLQ. */
  lemma {:induction false} VlqGroupsStep(b: BitString, limit: nat, prefix: BitString)
    requires |b| >= 8 && limit > 0
    ensures PrefixGroups(prefix, VlqGroups(b, limit)) ==
      if b[7] then PrefixGroups(prefix + b[..7], VlqGroups(b[8..], limit - 1)) else Some(prefix + b[..7])
  {
    if b[7] && VlqGroups(b[8..], limit - 1).Some? {
      var g := VlqGroups(b[8..], limit - 1).value;
      assert prefix + (b[..7] + g) == (prefix + b[..7]) + g;
    }
  }

  function PrefixGroups(prefix: BitString, r: Option<BitString>): Option<BitString> {
    match r
    case None => None
    case Some(g) => Some(prefix + g)
  }

  lemma {:induction false} NoPrefix(r: Option<BitString>)
    ensures PrefixGroups([], r) == r
  {
    if r.Some? {
      assert [] + r.value == r.value;
    }
  }

  /** `(u >> 1) ^ -(u & 1)` as a signed 64-bit number. */
  function UnZigZagWord(u: Word): int {
    ToInt64(Xor(Shr(u, 1), seq(64, _ => u[0])))
  }

  lemma {:induction false} UnZigZagWordIsUnZigZag(u: Word)
    ensures UnZigZagWord(u) == UnZigZag(Nat(u))
  {
    Pow2Values();
    Pow63();
    var half := Shr(u, 1);
    ShiftRightIsDivision(u, 1);
    assert Nat(u) == (if u[0] then 1 else 0) + 2 * Nat(u[1..]);
    NatBound(u[1..]);
    var z := Xor(half, seq(64, _ => u[0]));
    if u[0] {
      assert z == Complement(half);
      NatOfComplement(half);
    } else {
      assert z == half;
    }
  }

  /** How many of `batch` values of `w` bits the remaining bits hold. */
  function Available(batch: nat, w: nat, remaining: nat): (n: nat)
    ensures n <= batch && Span(n, w) <= remaining
    ensures n < batch ==> remaining < Span(n + 1, w)
  {
    if Span(batch, w) <= remaining then batch else Available(batch - 1, w, remaining)
  }

  lemma {:induction false} AvailableUnique(batch: nat, w: nat, remaining: nat, n: nat)
    requires n <= batch && Span(n, w) <= remaining
    requires n < batch ==> remaining < Span(n + 1, w)
    ensures Available(batch, w, remaining) == n
  {
    var m := Available(batch, w, remaining);
    if m < n {
      SpanMonotonic(m + 1, n, w);
    } else if n < m {
      SpanMonotonic(n + 1, m, w);
    }
  }

  /** The quotient the code computes when the bits run out. */
  lemma {:induction false} AvailableIsQuotient(batch: nat, w: nat, remaining: nat)
    ensures remaining < w * batch ==> w > 0 && Available(batch, w, remaining) == remaining / w >= 0
    ensures remaining >= w * batch ==> Available(batch, w, remaining) == batch
  {
    SpanIsProduct(batch, w);
    if remaining < w * batch {
      var n := Available(batch, w, remaining);
      PositiveFactor(w, batch);
      SpanIsProduct(n, w);
      QuotientUnique(remaining, w, n, remaining - Span(n, w));
    }
  }

  lemma {:induction false} PositiveFactor(w: nat, batch: nat)
    requires 0 < w * batch
    ensures w > 0
  {
  }

  class BitReader {
    var buffer: BitString
    var max_bytes: nat
    var buffered_values: Word
    var byte_offset: nat
    var bit_offset: nat

    ghost predicate Valid()
      reads this
    {
      && |buffer| == 8 * max_bytes
      && bit_offset < 64
      && Pos() <= |buffer|
      && forall j :: 0 <= j < 64 && 8 * byte_offset + j < |buffer| ==>
           buffered_values[j] == buffer[8 * byte_offset + j]
    }

    /** The number of bits read or skipped so far. */
    ghost function Pos(): nat
      reads `byte_offset, `bit_offset
    {
      8 * byte_offset + bit_offset
    }

    /** The next byte boundary. */
    ghost function NextByte(): nat
      reads this
    {
      8 * CeilDiv8(Pos())
    }

    ghost function Rest(): BitString
      requires Valid()
      reads this
    {
      buffer[Pos()..]
    }

    constructor (view: BitString, buffer_len: nat)
      requires |view| == 8 * buffer_len
      ensures Valid() && buffer == view && Pos() == 0
    {
      buffer := view;
      max_bytes := buffer_len;
      byte_offset := 0;
      bit_offset := 0;
      buffered_values := Load(view, 0, Zeros(64));
    }

    method Reset(view: BitString, buffer_len: nat)
      requires |view| == 8 * buffer_len
      modifies this
      ensures Valid() && buffer == view && Pos() == 0
    {
      buffer := view;
      max_bytes := buffer_len;
      byte_offset := 0;
      bit_offset := 0;
      buffered_values := Load(view, 0, buffered_values);
    }

    /** Read one value bit by bit position, across a word boundary if need be. */
    method TakeValue(num_bits: nat) returns (v: Word)
      requires Valid() && num_bits <= 64 && Pos() + num_bits <= |buffer|
      modifies this
      ensures Valid() && buffer == old(buffer) && Pos() == old(Pos()) + num_bits
      ensures v[..num_bits] == buffer[old(Pos())..Pos()] && Fits(v, num_bits)
    {
      ghost var held := Min(num_bits, 64 - bit_offset);
      HeldBits(buffered_values, bit_offset, num_bits);
      v := Shr(TrailingBits(buffered_values, bit_offset + num_bits), bit_offset);
      assert v[..held] == buffer[Pos()..Pos() + held];
      bit_offset := bit_offset + num_bits;
      if bit_offset >= 64 {
        v := NextWord(v, num_bits);
      }
    }

    /** The word is used up: load the next one and add the bits of `v` that start it. */
    method NextWord(v: Word, num_bits: nat) returns (r: Word)
      requires num_bits <= 64 <= bit_offset < 64 + num_bits
      requires |buffer| == 8 * max_bytes && num_bits <= Pos() <= |buffer|
      requires Fits(v, num_bits + 64 - bit_offset)
      requires v[..num_bits + 64 - bit_offset] == buffer[Pos() - num_bits..8 * byte_offset + 64]
      modifies this
      ensures Valid() && buffer == old(buffer) && Pos() == old(Pos())
      ensures r[..num_bits] == buffer[Pos() - num_bits..Pos()] && Fits(r, num_bits)
    {
      hide CrossWord, Load;
      r := v;
      byte_offset := byte_offset + 8;
      bit_offset := bit_offset - 64;
      buffered_values := Load(buffer, byte_offset, buffered_values);
      JoinSlices(buffer, Pos() - num_bits, 8 * byte_offset, Pos());
      if num_bits - bit_offset < 64 {
        CrossedBits(v, buffered_values, num_bits - bit_offset, num_bits);
        r := CrossWord(v, buffered_values, num_bits - bit_offset, num_bits);
      }
      assert buffered_values[..bit_offset] == buffer[8 * byte_offset..Pos()];
    }

    /** Read `num_bytes` bytes at the next byte boundary into a `sizeof_t`-byte variable. */
    method GetAligned(num_bytes: nat, sizeof_t: nat) returns (ok: bool, v: BitString)
      requires Valid()
      modifies this
      ensures Valid() && buffer == old(buffer)
      ensures ok == (num_bytes <= sizeof_t && old(NextByte()) + 8 * num_bytes <= |buffer|)
      ensures !ok ==> unchanged(this)
      ensures ok ==> Pos() == old(NextByte()) + 8 * num_bytes && v == buffer[old(NextByte())..Pos()]
      ensures ok ==> bit_offset == 0
    {
      hide CeilDiv8;
      BytesAndBits(byte_offset, bit_offset);
      if num_bytes > sizeof_t {
        return false, [];
      }
      var bytes_read := CeilDiv8(bit_offset);
      if byte_offset + bytes_read + num_bytes > max_bytes {
        return false, [];
      }
      byte_offset := byte_offset + bytes_read;
      v := buffer[8 * byte_offset..8 * byte_offset + 8 * num_bytes];
      byte_offset := byte_offset + num_bytes;
      bit_offset := 0;
      buffered_values := Load(buffer, byte_offset, buffered_values);
      ok := true;
    }

    /** The first `i` bytes of a VLQ starting at `start` have been read; they carry `groups`. */
    ghost predicate InVlq(start: nat, groups: BitString, i: nat, limit: nat)
      reads this
    {
      && i <= limit && |groups| == 7 * i
      && start <= NextByte() == start + 8 * i <= |buffer|
      && VlqGroups(buffer[start..], limit) == PrefixGroups(groups, VlqGroups(buffer[NextByte()..], limit - i))
    }

    method TakeVlqByte(ghost start: nat, ghost groups: BitString, ghost i: nat, ghost limit: nat)
      returns (got: bool, byte: BitString)
      requires Valid() && InVlq(start, groups, i, limit) && i < limit
      modifies this
      ensures Valid() && buffer == old(buffer) && Pos() >= old(Pos())
      ensures !got ==> VlqGroups(buffer[start..], limit) == None
      ensures got ==> |byte| == 8 && NextByte() == Pos() == start + 8 * (i + 1)
      ensures got && byte[7] ==> InVlq(start, groups + byte[..7], i + 1, limit)
      ensures got && !byte[7] ==> VlqGroups(buffer[start..], limit) == Some(groups + byte[..7])
    {
      hide VlqGroups, PrefixGroups;
      ghost var at := NextByte();
      NextVlqByte(buffer, at, groups, limit - i);
      got, byte := GetAligned(1, 1);
    }

    /** Read a VLQ of at most `limit` bytes into a variable of `width` bits. */
    method GetVlqInt(width: nat, limit: nat) returns (ok: bool, v: BitString)
      requires Valid()
      modifies this
      ensures Valid() && buffer == old(buffer) && Pos() >= old(Pos())
      ensures old(NextByte()) <= |buffer|
      ensures var g := VlqGroups(buffer[old(NextByte())..], limit);
        && ok == g.Some?
        && (ok ==> v == Resize(g.value, width) && Pos() == old(NextByte()) + VlqBits(g.value))
    {
      var tmp := Zeros(width);
      ghost var start, groups := NextByte(), [];
      NoPrefix(VlqGroups(buffer[start..], limit));
      for i := 0 to limit
        invariant Valid() && buffer == old(buffer) && Pos() >= old(Pos())
        invariant InVlq(start, groups, i, limit)
        invariant tmp == Resize(groups, width)
      {
        var got, byte := TakeVlqByte(start, groups, i, limit);
        if !got {
          return false, [];
        }
        OrGroup(groups, byte[..7], width);
        tmp := Or(tmp, Shl(Resize(byte[..7], width), 7 * i));
        groups := groups + byte[..7];
        if !byte[7] {
          return true, tmp;
        }
      }
      ok, v := false, [];
    }

    /** Read a zigzag VLQ as a signed 64-bit number. */
    method GetZigZagVlqInt() returns (ok: bool, v: int)
      requires Valid()
      modifies this
      ensures Valid() && buffer == old(buffer) && Pos() >= old(Pos())
      ensures old(NextByte()) <= |buffer|
      ensures var g := VlqGroups(buffer[old(NextByte())..], 10);
        && ok == g.Some?
        && (ok ==> v == UnZigZag(VlqValue(g.value, 64)) && Pos() == old(NextByte()) + VlqBits(g.value))
    {
      var u;
      ok, u := GetVlqInt(64, 10);
      if ok {
        UnZigZagWordIsUnZigZag(u);
        v := UnZigZagWord(u);
      } else {
        v := 0;
      }
    }

    /** Values read so far: `i` of them from bit `start`, now in `out[at..]`. */
    ghost predicate Taken(out: array<nat>, at: nat, start: nat, w: nat, i: nat)
      reads `buffer, `byte_offset, `bit_offset, out
    {
      && at + i <= out.Length && start <= |buffer|
      && Span(i, w) <= |buffer[start..]| && Pos() == start + Span(i, w)
      && out[at..at + i] == Unpack(buffer[start..], w, i)
    }

    /** Read single values into `out` until `n` are there, or only to a word boundary. */
    method TakeSingles(num_bits: nat, out: array<nat>, at: nat, from: nat, n: nat, until_aligned: bool,
                       ghost start: nat) returns (i: nat)
      requires Valid() && num_bits <= 64 && from <= n && at + n <= out.Length
      requires Taken(out, at, start, num_bits, from) && Span(n, num_bits) <= |buffer[start..]|
      modifies this, out
      ensures Valid() && buffer == old(buffer) && from <= i <= n
      ensures i == n || (until_aligned && bit_offset == 0)
      ensures Taken(out, at, start, num_bits, i)
      ensures forall k :: 0 <= k < out.Length && !(at + from <= k < at + i) ==> out[k] == old(out[k])
    {
      i := from;
      while i < n && !(until_aligned && bit_offset == 0)
        invariant Valid() && buffer == old(buffer) && from <= i <= n
        invariant Taken(out, at, start, num_bits, i)
        invariant forall k :: 0 <= k < out.Length && !(at + from <= k < at + i) ==> out[k] == old(out[k])
      {
        TakeOne(num_bits, out, at, i, n, start);
        i := i + 1;
      }
    }

    method TakeOne(num_bits: nat, out: array<nat>, at: nat, i: nat, ghost n: nat, ghost start: nat)
      requires Valid() && num_bits <= 64 && i < n && at + n <= out.Length
      requires Taken(out, at, start, num_bits, i) && Span(n, num_bits) <= |buffer[start..]|
      modifies this, out
      ensures Valid() && buffer == old(buffer)
      ensures Taken(out, at, start, num_bits, i + 1)
      ensures forall k :: 0 <= k < out.Length && k != at + i ==> out[k] == old(out[k])
    {
      hide Unpack, Nat;
      SpanMonotonic(i + 1, n, num_bits);
      ghost var p := Pos();
      UnpackNext(buffer[start..], num_bits, i);
      SliceOfDrop(buffer, start, p - start, p - start + num_bits);
      var v := TakeValue(num_bits);
      NatOfPrefix(v, num_bits);
      out[at + i] := Nat(v);
      assert out[at..at + i + 1] == out[at..at + i] + [Nat(v)];
    }

    /** The 32-at-a-time part of a batch, from a byte boundary unless nothing is left to do. */
    method TakeBlocks(num_bits: nat, out: array<nat>, at: nat, from: nat, n: nat, sizeof_t: nat,
                      ghost start: nat) returns (i: nat)
      requires Valid() && num_bits <= 32 && from <= n && at + n <= out.Length
      requires bit_offset == 0 || from == n
      requires Taken(out, at, start, num_bits, from) && Span(n, num_bits) <= |buffer[start..]|
      modifies this, out
      ensures buffer == old(buffer) && max_bytes == old(max_bytes) && bit_offset == old(bit_offset)
      ensures from <= i <= n && Taken(out, at, start, num_bits, i)
      ensures forall k :: 0 <= k < out.Length && !(at + from <= k < at + i) ==> out[k] == old(out[k])
    {
      i := from;
      if sizeof_t == 4 {
        i := TakeBlocksInto(num_bits, out, at, i, n, n - i, start);
      } else {
        while i < n
          invariant buffer == old(buffer) && max_bytes == old(max_bytes) && bit_offset == old(bit_offset)
          invariant from <= i <= n && Taken(out, at, start, num_bits, i)
          invariant forall k :: 0 <= k < out.Length && !(at + from <= k < at + i) ==> out[k] == old(out[k])
        {
          var done := i;
          i := TakeBlocksInto(num_bits, out, at, i, n, Min(1024, n - i), start);
          if i == done {
            break;
          }
        }
      }
    }

    /** One call of `unpack32` for at most `batch` values, and the byte position moved past them. */
    method TakeBlocksInto(num_bits: nat, out: array<nat>, at: nat, from: nat, n: nat, batch: nat,
                          ghost start: nat) returns (i: nat)
      requires num_bits <= 32 && from + batch <= n && at + n <= out.Length
      requires bit_offset == 0 || batch == 0
      requires Taken(out, at, start, num_bits, from) && Span(n, num_bits) <= |buffer[start..]|
      requires Pos() <= |buffer|
      modifies this, out
      ensures buffer == old(buffer) && max_bytes == old(max_bytes) && bit_offset == old(bit_offset)
      ensures from <= i <= from + batch && Taken(out, at, start, num_bits, i)
      ensures forall k :: 0 <= k < out.Length && !(at + from <= k < at + i) ==> out[k] == old(out[k])
    {
      hide Unpack, Span, CeilDiv8;
      ghost var rest, done := buffer[start..], out[at..at + from];
      BatchFits(rest, num_bits, from, batch, n);
      var input := buffer[8 * byte_offset..];
      assert batch > 0 ==> input == rest[Span(from, num_bits)..];
      var num_unpacked := Unpack32(input, out, at + from, batch, num_bits);
      i := from + num_unpacked;
      AdvanceBlocks(rest, input, num_bits, from, num_unpacked, n);
      var bytes := num_unpacked * num_bits / 8;
      JoinSlices(out[..], at, at + from, at + i);
      byte_offset := byte_offset + bytes;
    }

    /** Read up to `batch_size` values of `num_bits` bits into `out`; how many there were. */
    method GetBatch(num_bits: nat, out: array<nat>, at: nat, batch_size: nat, sizeof_t: nat) returns (n: nat)
      requires Valid() && num_bits <= 8 * sizeof_t <= 64 && at + batch_size <= out.Length
      modifies this, out
      ensures Valid() && buffer == old(buffer)
      ensures n == Available(batch_size, num_bits, |old(Rest())|)
      ensures out[at..at + n] == Unpack(old(Rest()), num_bits, n)
      ensures Pos() == old(Pos()) + Span(n, num_bits)
      ensures forall k :: 0 <= k < out.Length && !(at <= k < at + n) ==> out[k] == old(out[k])
    {
      hide Unpack, Available, Load, Span, BitReader.Taken;
      ghost var start := Pos();
      n := FitBatch(num_bits, batch_size);
      NothingTaken(out, at, num_bits);
      var i := TakeSingles(num_bits, out, at, 0, n, true, start);
      if num_bits <= 32 {
        i := TakeBlocks(num_bits, out, at, i, n, sizeof_t, start);
      }
      AllTaken(out, at, start, num_bits, i);
      buffered_values := Load(buffer, byte_offset, buffered_values);
      i := TakeSingles(num_bits, out, at, i, n, false, start);
      AllTaken(out, at, start, num_bits, n);
    }

    lemma {:induction false} AllTaken(out: array<nat>, at: nat, start: nat, w: nat, n: nat)
      requires Taken(out, at, start, w, n)
      ensures at + n <= out.Length && start <= |buffer| && Span(n, w) <= |buffer[start..]| && Pos() == start + Span(n, w)
      ensures out[at..at + n] == Unpack(buffer[start..], w, n)
    {
    }

    lemma {:induction false} NothingTaken(out: array<nat>, at: nat, w: nat)
      requires Valid() && at <= out.Length
      ensures Taken(out, at, Pos(), w, 0)
    {
    }

    /** What is left comes right behind the position. */
    lemma {:induction false} RestIsLeft()
      requires Valid()
      ensures Pos() + |Rest()| == |buffer| && Rest() == buffer[Pos()..]
    {
    }

    /** A batch is cut down to the values that are there. */
    method FitBatch(num_bits: nat, batch_size: nat) returns (n: nat)
      requires Valid()
      ensures n == Available(batch_size, num_bits, |Rest()|)
    {
      var remaining_bits := (max_bytes - byte_offset) * 8 - bit_offset;
      n := batch_size;
      AvailableIsQuotient(batch_size, num_bits, remaining_bits);
      if remaining_bits < num_bits * batch_size {
        n := remaining_bits / num_bits;
      }
    }
  }

  /** The byte at `at` ends a VLQ or goes on with it. */
  lemma {:induction false} NextVlqByte(buffer: BitString, at: nat, groups: BitString, limit: nat)
    requires at <= |buffer| && limit > 0
    ensures |buffer| < at + 8 ==> PrefixGroups(groups, VlqGroups(buffer[at..], limit)) == None
    ensures at + 8 <= |buffer| ==>
      var byte := buffer[at..at + 8];
      PrefixGroups(groups, VlqGroups(buffer[at..], limit)) ==
        if byte[7] then PrefixGroups(groups + byte[..7], VlqGroups(buffer[at + 8..], limit - 1)) else Some(groups + byte[..7])
  {
    if at + 8 <= |buffer| {
      var rest, byte := buffer[at..], buffer[at..at + 8];
      assert rest[..8] == byte && rest[..7] == byte[..7] && rest[8..] == buffer[at + 8..];
      VlqGroupsStep(rest, limit, groups);
    }
  }

  lemma {:induction false} WholeBytes(m: nat, w: nat)
    requires m % 32 == 0
    ensures m * w / 8 >= 0 && Span(m, w) == 8 * (m * w / 8)
  {
    hide Span;
    SpanIsProduct(m, w);
    SpanOfGroups(4 * (m / 32), w);
  }

  lemma {:induction false} BatchFits(rest: BitString, w: nat, from: nat, batch: nat, n: nat)
    requires from + batch <= n && Span(n, w) <= |rest|
    ensures Span(from, w) <= |rest| && Span(from + batch, w) == Span(from, w) + Span(batch, w) <= |rest|
    ensures Span(batch, w) <= |rest[Span(from, w)..]|
    ensures Unpack(rest, w, from + batch) == Unpack(rest, w, from) + Unpack(rest[Span(from, w)..], w, batch)
  {
    hide Unpack, Span;
    SpanMonotonic(from + batch, n, w);
    SpanAdd(from, batch, w);
    UnpackSplit(rest, w, from, batch);
  }

  /** A multiple of 32 more values: they fill whole bytes. */
  lemma {:induction false} AdvanceBlocks(rest: BitString, input: BitString, w: nat, from: nat, m: nat, n: nat)
    requires from + m <= n && Span(n, w) <= |rest| && m % 32 == 0
    requires Span(m, w) <= |input|
    requires m > 0 ==> Span(from, w) <= |rest| && input == rest[Span(from, w)..]
    ensures Span(from, w) <= |rest| && Span(from + m, w) == Span(from, w) + 8 * (m * w / 8) <= |rest|
    ensures m * w / 8 >= 0
    ensures Unpack(rest, w, from + m) == Unpack(rest, w, from) + Unpack(input, w, m)
  {
    hide Unpack, Span;
    BatchFits(rest, w, from, m, n);
    WholeBytes(m, w);
    if m == 0 {
      UnpackNone(input, w);
      UnpackNone(rest[Span(from, w)..], w);
    }
  }
}
