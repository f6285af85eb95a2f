/**
The bit stream writer: bit-packed and byte-aligned writes into a preallocated buffer,
through a 64-bit staging word.

Memory is an array of bits; `base` is the bit index of the byte the writer was
pointed at. The ghost field `stream` is everything written so far.
 */
module BitWriting {
  import opened Options
  import opened Bits

  /** `memcpy` of `src` to bit index `at`. */
  method CopyBits(dst: array<bool>, at: nat, src: BitString)
    requires at + |src| <= dst.Length
    modifies dst
    ensures forall i :: 0 <= i < at ==> dst[i] == old(dst[i])
    ensures forall i :: 0 <= i < |src| ==> dst[at + i] == src[i]
    ensures forall i :: at + |src| <= i < dst.Length ==> dst[i] == old(dst[i])
  {
    forall i | 0 <= i < |src| {
      dst[at + i] := src[i];
    }
  }

  // ----- Variable-length quantities -----

  /** ULEB-128: seven bits a byte, the top bit set on all bytes but the last. */
  function Vlq(n: nat): (b: BitString)
    ensures |b| >= 8 && |b| % 8 == 0
  {
    if n < 128 then VlqByte(n) else VlqByte(n) + Vlq(n / 128)
  }

  function VlqByte(n: nat): (b: BitString)
    ensures |b| == 8
  {
    if n < 128 then ToBits(n, 8) else ToBits(n % 128 + 128, 8)
  }

  /** A VLQ of a number below 2^(7k) takes at most k bytes. */
  lemma {:induction false} VlqLength(n: nat, k: nat)
    requires k >= 1 && n < Pow2(7 * k)
    ensures |Vlq(n)| <= 8 * k
  {
    Pow2Values();
    if n >= 128 {
      assert k > 1;
      Pow2Add(7, 7 * (k - 1));
      assert n / 128 < Pow2(7 * (k - 1));
      VlqLength(n / 128, k - 1);
    }
  }

  /** `(v & ~0x7F) != 0`. */
  predicate MoreThanSevenBits(v: Word) {
    exists i :: 7 <= i < 64 && v[i]
  }

  lemma {:induction false} MoreThanSevenBitsIff(v: Word)
    ensures MoreThanSevenBits(v) <==> Nat(v) >= 128
    ensures Nat(Shr(v, 7)) == Nat(v) / 128
  {
    SplitSeven(v);
    ShiftRightIsDivision(v, 7);
    NatZeroIff(v[7..]);
    var high := v[7..];
    if MoreThanSevenBits(v) {
      var i :| 7 <= i < 64 && v[i];
      assert high[i - 7];
    } else {
      assert forall i :: 0 <= i < |high| ==> high[i] == v[i + 7];
    }
  }

  lemma {:induction false} SevenBitsAndTop(low: BitString)
    requires |low| == 7
    ensures low + [true] == ToBits(Nat(low) + 128, 8)
    ensures low + [false] == ToBits(Nat(low), 8)
  {
    Pow2Values();
    NatAppend(low, [true]);
    NatAppend(low, [false]);
    ToBitsOfNat(low + [true]);
    ToBitsOfNat(low + [false]);
    assert Nat([true]) == 1 && Nat([false]) == 0;
  }

  lemma {:induction false} SplitSeven(v: Word)
    ensures Nat(v) == Nat(v[..7]) + 128 * Nat(v[7..]) && Nat(v[..7]) < 128
  {
    Pow2Values();
    NatSplit(v, 7);
  }

  lemma {:induction false} LowByte(v: Word)
    ensures v[..7] + [Nat(v) >= 128] == VlqByte(Nat(v))
  {
    hide Nat, ToBits;
    SplitSeven(v);
    QuotientUnique(Nat(v), 128, Nat(v[7..]), Nat(v[..7]));
    SevenBitsAndTop(v[..7]);
  }

  /** Zigzag: sign in the lowest bit, so that small magnitudes stay small. */
  function ZigZag(v: int): nat {
    if v >= 0 then 2 * v else -2 * v - 1
  }

  function UnZigZag(u: nat): int {
    if u % 2 == 0 then u / 2 else -(u / 2) - 1
  }

  lemma {:induction false} ZigZagRoundTrip(v: int)
    ensures UnZigZag(ZigZag(v)) == v
  {
  }

  predicate IsInt64(v: int) {
    -0x8000_0000_0000_0000 <= v < 0x8000_0000_0000_0000
  }

  lemma {:induction false} Pow63()
    ensures Pow2(63) == 0x8000_0000_0000_0000
  {
    Pow2Values();
  }

  /** The two's complement word of a signed 64-bit number, and back. */
  function FromInt64(v: int): Word
    requires IsInt64(v)
  {
    ToBits(if v >= 0 then v else v + 0x1_0000_0000_0000_0000, 64)
  }

  function ToInt64(w: Word): int {
    if w[63] then Nat(w) - 0x1_0000_0000_0000_0000 else Nat(w)
  }

  function Complement(b: BitString): (c: BitString)
    ensures |c| == |b|
  {
    seq(|b|, i requires 0 <= i < |b| => !b[i])
  }

  lemma {:induction false} NatOfComplement(b: BitString)
    ensures Nat(b) + Nat(Complement(b)) == Pow2(|b|) - 1
  {
    if b != [] {
      NatOfComplement(b[1..]);
      assert Complement(b)[1..] == Complement(b[1..]);
    }
  }

  /** The top bit of a word is the sign. */
  lemma {:induction false} SignBit(w: Word)
    ensures Nat(w) == Nat(w[..63]) + (if w[63] then Pow2(63) else 0)
    ensures Nat(w[..63]) < Pow2(63)
  {
    assert w == w[..63] + [w[63]];
    NatAppend(w[..63], [w[63]]);
    assert Nat([true]) == 1 && Nat([false]) == 0;
    NatBound(w[..63]);
  }

  lemma {:induction false} Int64Facts(v: int)
    requires IsInt64(v)
    ensures ToInt64(FromInt64(v)) == v
    ensures FromInt64(v)[63] == (v < 0)
    ensures Nat(FromInt64(v)[..63]) == if v < 0 then v + Pow2(63) else v
  {
    Pow2Values();
    Pow63();
    NatOfToBits(if v >= 0 then v else v + 0x1_0000_0000_0000_0000, 64);
    SignBit(FromInt64(v));
  }

  /** `(v << 1) ^ (v >> 63)`, the second shift arithmetic. */
  function ZigZagWord(w: Word): Word {
    Xor(Shl(w, 1), seq(64, _ => w[63]))
  }

  lemma {:induction false} ZigZagWordIsZigZag(v: int)
    requires IsInt64(v)
    ensures Nat(ZigZagWord(FromInt64(v))) == ZigZag(v) < Pow2(64)
  {
    var w := FromInt64(v);
    var low := w[..63];
    Int64Facts(v);
    var z := ZigZagWord(w);
    if v < 0 {
      assert z == [true] + Complement(low);
      NatOfComplement(low);
      Pow63();
      assert z[1..] == Complement(low);
    } else {
      assert z == [false] + low;
      assert z[1..] == low;
    }
    Pow2Values();
  }

  /** The staging word after one write: what was staged, then the value. */
  lemma {:induction false} StagedWord(staged: Word, v: Word, offset: nat, n: nat)
    requires offset < 64 && n <= 64
    ensures var w := Or(staged, Shl(v, offset)); var used := Min(n, 64 - offset);
      && w[..offset] == staged[..offset]
      && (Fits(staged, offset) ==> w[offset..offset + used] == v[..used])
      && (Fits(staged, offset) && Fits(v, n) ==> Fits(w, offset + n))
  {
  }

  /** The bits of the value that did not fit the staging word. */
  function CarriedWord(v: Word, used: nat): Word {
    if used == 64 then Zeros(64) else Shr(v, used)
  }

  lemma {:induction false} CarriedWordFacts(v: Word, used: nat, n: nat)
    requires 0 < used <= n <= 64
    ensures var c := CarriedWord(v, used);
      && c[..n - used] == v[used..n]
      && (Fits(v, n) ==> Fits(c, n - used))
  {
  }

  lemma {:induction false} VlqStep(start: BitString, done: BitString, n: nat)
    ensures (start + done) + VlqByte(n) == start + (done + VlqByte(n))
    ensures n >= 128 ==> done + Vlq(n) == (done + VlqByte(n)) + Vlq(n / 128)
    ensures n < 128 ==> Vlq(n) == VlqByte(n)
  {
    Associate(start, done, VlqByte(n));
    if n >= 128 {
      Associate(done, VlqByte(n), Vlq(n / 128));
    }
  }

  class BitWriter {
    const buffer: array<bool>
    const base: nat
    const max_bytes: nat
    var buffered_values: Word
    var byte_offset: nat
    var bit_offset: nat
    ghost var stream: BitString  // everything written so far

    ghost predicate Valid()
      reads this, buffer
    {
      && base + 8 * max_bytes <= buffer.Length
      && bit_offset < 64
      && |stream| == 8 * byte_offset + bit_offset <= 8 * max_bytes
      && buffer[base..base + 8 * byte_offset] == stream[..8 * byte_offset]
      && buffered_values[..bit_offset] == stream[8 * byte_offset..]
    }

    /** The staging word holds nothing above the current position. */
    ghost predicate Clean()
      reads this
    {
      Fits(buffered_values, bit_offset)
    }

    /** What a flush stores between the last bit written and the next byte boundary. */
    ghost function Padding(): (p: BitString)
      requires bit_offset < 64
      reads this
      ensures |p| == 8 * CeilDiv8(bit_offset) - bit_offset
      ensures Clean() ==> p == Zeros(|p|)
    {
      buffered_values[bit_offset..8 * CeilDiv8(bit_offset)]
    }

    constructor (buffer: array<bool>, base: nat, max_bytes: nat)
      requires base + 8 * max_bytes <= buffer.Length
      ensures Valid() && Clean() && stream == []
      ensures this.buffer == buffer && this.base == base && this.max_bytes == max_bytes
    {
      this.buffer := buffer;
      this.base := base;
      this.max_bytes := max_bytes;
      buffered_values := Zeros(64);
      byte_offset := 0;
      bit_offset := 0;
      stream := [];
    }

    method BytesWritten() returns (n: nat)
      requires Valid()
      ensures 8 * n == |stream| + |Padding()|
    {
      n := byte_offset + CeilDiv8(bit_offset);
    }

    /** Write `num_bits` bits: those of `v`, if the writer is clean. Excess high bits of `v`
        may disturb what is written later, never what was written before. */
    method PutValue(v: Word, num_bits: nat) returns (ok: bool, ghost bits: BitString)
      requires Valid() && num_bits <= 64
      modifies this, buffer
      ensures Valid() && buffer[..base] == old(buffer[..base])
      ensures ok == (|old(stream)| + num_bits <= 8 * max_bytes)
      ensures !ok ==> stream == old(stream) && buffered_values == old(buffered_values)
      ensures ok ==> stream == old(stream) + bits && |bits| == num_bits
      ensures ok && old(Clean()) ==> bits == v[..num_bits]
      ensures old(Clean()) && Fits(v, num_bits) ==> Clean()
      ensures byte_offset >= old(byte_offset)
    {
      if byte_offset * 8 + bit_offset + num_bits > max_bytes * 8 {
        return false, [];
      }
      bits := Stage(v, num_bits);
      if bit_offset >= 64 {
        ghost var carried := Spill(v, num_bits);
        bits := bits + carried;
      }
      ok := true;
    }

    /** `buffer` and the staging word, possibly overfull, hold the stream so far. */
    ghost predicate Staging(used: nat)
      reads this, buffer
    {
      && base + 8 * max_bytes <= buffer.Length
      && 8 * byte_offset + bit_offset <= 8 * max_bytes
      && used <= 64
      && |stream| == 8 * byte_offset + used
      && buffer[base..base + 8 * byte_offset] == stream[..8 * byte_offset]
      && buffered_values[..used] == stream[8 * byte_offset..]
    }

    /** Or the value into the staging word, as far as it fits there. */
    method Stage(v: Word, num_bits: nat) returns (ghost bits: BitString)
      requires Valid() && num_bits <= 64
      requires |stream| + num_bits <= 8 * max_bytes
      modifies this
      ensures byte_offset == old(byte_offset) && bit_offset == old(bit_offset) + num_bits
      ensures Staging(Min(bit_offset, 64))
      ensures stream == old(stream) + bits && |bits| == Min(num_bits, 64 - old(bit_offset))
      ensures old(Clean()) ==> bits == v[..|bits|]
      ensures old(Clean()) && Fits(v, num_bits) ==> Clean()
    {
      ghost var offset, used := bit_offset, Min(num_bits, 64 - bit_offset);
      StagedWord(buffered_values, v, bit_offset, num_bits);
      buffered_values := Or(buffered_values, Shl(v, bit_offset));
      bits := buffered_values[offset..offset + used];
      stream := stream + bits;
      bit_offset := bit_offset + num_bits;
    }

    /** The staging word is full: store it and keep the bits of `v` that did not fit. */
    method Spill(v: Word, num_bits: nat) returns (ghost carried: BitString)
      requires num_bits <= 64 <= bit_offset < 64 + num_bits && Staging(64)
      modifies this, buffer
      ensures Valid() && buffer[..base] == old(buffer[..base])
      ensures bit_offset == old(bit_offset) - 64 && byte_offset == old(byte_offset) + 8
      ensures stream == old(stream) + carried && carried == v[num_bits - bit_offset..num_bits]
      ensures Fits(v, num_bits) ==> Clean()
    {
      hide CarriedWord;
      StoreWord();
      ghost var stored := stream;
      byte_offset := byte_offset + 8;
      bit_offset := bit_offset - 64;
      var bits_used := num_bits - bit_offset;
      CarriedWordFacts(v, bits_used, num_bits);
      buffered_values := CarriedWord(v, bits_used);
      carried := buffered_values[..bit_offset];
      stream := stream + carried;
      Parts(stored, carried);
    }

    /** `memcpy` of the full staging word. */
    method StoreWord()
      requires Staging(64) && 8 * byte_offset + 64 <= 8 * max_bytes
      modifies buffer
      ensures buffer[..base] == old(buffer[..base])
      ensures buffer[base..base + 8 * (byte_offset + 8)] == stream
    {
      CopyBits(buffer, base + 8 * byte_offset, buffered_values);
      forall i | 0 <= i < |stream| ensures buffer[base + i] == stream[i] {
        if i < 8 * byte_offset {
          assert old(buffer[base..base + 8 * byte_offset])[i] == stream[i];
        } else {
          var k := i - 8 * byte_offset;
          assert buffer[base + 8 * byte_offset + k] == buffered_values[k] == stream[i];
        }
      }
    }

    /** `memcpy` of the used bytes of the staging word to the current byte position. */
    method StoreStaged()
      requires Valid()
      modifies buffer
      ensures Valid() && buffer[..base] == old(buffer[..base])
      ensures base + |stream| + |Padding()| <= base + 8 * max_bytes
      ensures buffer[base..base + |stream| + |Padding()|] == stream + Padding()
    {
      var bits := buffered_values[..8 * CeilDiv8(bit_offset)];
      ghost var whole := stream + Padding();
      CopyBits(buffer, base + 8 * byte_offset, bits);
      forall i | 0 <= i < |whole| ensures buffer[base + i] == whole[i] {
        if i < 8 * byte_offset {
          assert old(buffer[base..base + 8 * byte_offset])[i] == stream[i];
        } else {
          assert buffer[base + 8 * byte_offset + (i - 8 * byte_offset)] == bits[i - 8 * byte_offset];
        }
      }
    }

    /** Store the staging word; with `align`, later writes start at the next byte. */
    method Flush(align: bool)
      requires Valid()
      modifies this, buffer
      ensures Valid() && buffer[..base] == old(buffer[..base])
      ensures !align ==> unchanged(this)
      ensures align ==> Clean() && bit_offset == 0 && stream == old(stream) + old(Padding())
      ensures base + |old(stream)| + |old(Padding())| <= base + 8 * max_bytes
      ensures buffer[base..base + |old(stream)| + |old(Padding())|] == old(stream) + old(Padding())
    {
      StoreStaged();
      if align {
        stream := stream + Padding();
        byte_offset := byte_offset + CeilDiv8(bit_offset);
        buffered_values := Zeros(64);
        bit_offset := 0;
      }
    }

    /** At a byte boundary the stream is what is in memory. */
    lemma {:induction false} WholeStream()
      requires Valid() && bit_offset == 0
      ensures stream == buffer[base..base + 8 * byte_offset]
    {
      assert stream[..8 * byte_offset] == stream;
    }

    /** Reserve `num_bytes` bytes at the next byte boundary; their position in memory. */
    method GetNextBytePtr(num_bytes: nat) returns (ptr: Option<nat>)
      requires Valid()
      modifies this, buffer
      ensures Valid() && Clean() && bit_offset == 0 && buffer[..base] == old(buffer[..base])
      ensures ptr.Some? == (|old(stream)| + |old(Padding())| + 8 * num_bytes <= 8 * max_bytes)
      ensures ptr.None? ==> stream == old(stream) + old(Padding())
      ensures ptr.Some? ==>
        && ptr.value == base + |old(stream)| + |old(Padding())|
        && |stream| == |old(stream)| + |old(Padding())| + 8 * num_bytes
        && old(stream) + old(Padding()) <= stream
    {
      hide Fits;
      Flush(true);
      if byte_offset + num_bytes > max_bytes {
        return None;
      }
      ptr := Some(base + 8 * byte_offset);
      WholeStream();
      JoinSlices(buffer[..], base, base + 8 * byte_offset, base + 8 * (byte_offset + num_bytes));
      byte_offset := byte_offset + num_bytes;
      stream := buffer[base..base + 8 * byte_offset];
    }

    /** Write through a position obtained earlier from `GetNextBytePtr`. */
    method Store(ptr: nat, bits: BitString)
      requires Valid()
      requires base <= ptr && ptr + |bits| <= base + 8 * byte_offset
      modifies buffer, `stream
      ensures Valid() && buffer[..base] == old(buffer[..base])
      ensures stream == old(stream)[..ptr - base] + bits + old(stream)[ptr - base + |bits|..]
    {
      ghost var old_stream, at := stream, ptr - base;
      CopyBits(buffer, ptr, bits);
      stream := stream[..at] + bits + stream[at + |bits|..];
      forall i | 0 <= i < 8 * byte_offset ensures buffer[base + i] == stream[i] {
        assert old(buffer[base..base + 8 * byte_offset])[i] == old_stream[i];
      }
    }

    /** Write the low `num_bytes` bytes of `v` at the next byte boundary. */
    method PutAligned(v: Word, num_bytes: nat) returns (ok: bool)
      requires Valid() && num_bytes <= 8
      modifies this, buffer
      ensures Valid() && Clean() && bit_offset == 0 && buffer[..base] == old(buffer[..base])
      ensures ok == (|old(stream)| + |old(Padding())| + 8 * num_bytes <= 8 * max_bytes)
      ensures !ok ==> stream == old(stream) + old(Padding())
      ensures ok ==> stream == old(stream) + old(Padding()) + v[..8 * num_bytes]
    {
      var ptr := GetNextBytePtr(num_bytes);
      if ptr.None? {
        return false;
      }
      Store(ptr.value, v[..8 * num_bytes]);
      ok := true;
    }

    /** Write one byte of a VLQ: the low seven bits of `v` and the continuation bit. */
    method PutVlqByte(v: Word, more: bool) returns (ok: bool)
      requires Valid() && more == (Nat(v) >= 128)
      modifies this, buffer
      ensures Valid() && Clean() && bit_offset == 0 && buffer[..base] == old(buffer[..base])
      ensures ok == (|old(stream)| + |old(Padding())| + 8 <= 8 * max_bytes)
      ensures !ok ==> stream == old(stream) + old(Padding())
      ensures ok ==> stream == old(stream) + old(Padding()) + VlqByte(Nat(v))
    {
      LowByte(v);
      var byte := v[..7] + [more];
      ok := PutAligned(Resize(byte, 64), 1);
    }

    /** Write a number byte-aligned as a VLQ. */
    method PutVlqInt(n: Word) returns (ok: bool)
      requires Valid()
      modifies this, buffer
      ensures Valid() && Clean() && bit_offset == 0 && buffer[..base] == old(buffer[..base])
      ensures ok == (|old(stream)| + |old(Padding())| + |Vlq(Nat(n))| <= 8 * max_bytes)
      ensures ok ==> stream == old(stream) + old(Padding()) + Vlq(Nat(n))
    {
      hide Vlq, VlqByte, Nat, MoreThanSevenBits;
      var v: Word := n;
      var result := true;
      ghost var start, done := stream + Padding(), [];
      MoreThanSevenBitsIff(v);
      while MoreThanSevenBits(v)
        invariant Valid() && buffer[..base] == old(buffer[..base])
        invariant MoreThanSevenBits(v) == (Nat(v) >= 128)
        invariant result ==> stream + Padding() == start + done
        invariant Vlq(Nat(n)) == done + Vlq(Nat(v))
        invariant result == (|start| + |done| <= 8 * max_bytes)
        decreases Nat(v)
      {
        var ok1 := PutVlqByte(v, true);
        result := result && ok1;
        VlqStep(start, done, Nat(v));
        done := done + VlqByte(Nat(v));
        assert Padding() == [];
        MoreThanSevenBitsIff(v);
        v := Shr(v, 7);
        MoreThanSevenBitsIff(v);
      }
      VlqStep(start, done, Nat(v));
      var ok2 := PutVlqByte(v, false);
      ok := result && ok2;
    }

    /** Write a signed 64-bit number as a zigzag VLQ. */
    method PutZigZagVlqInt(v: int) returns (ok: bool)
      requires Valid() && IsInt64(v)
      modifies this, buffer
      ensures Valid() && Clean() && bit_offset == 0 && buffer[..base] == old(buffer[..base])
      ensures ok == (|old(stream)| + |old(Padding())| + |Vlq(ZigZag(v))| <= 8 * max_bytes)
      ensures ok ==> stream == old(stream) + old(Padding()) + Vlq(ZigZag(v))
    {
      ZigZagWordIsZigZag(v);
      ok := PutVlqInt(ZigZagWord(FromInt64(v)));
    }
  }
}
