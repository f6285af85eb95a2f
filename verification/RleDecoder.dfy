/**
The hybrid decoder: runs are taken up one header at a time, and a batch may start and
stop anywhere inside them. `Pending()` is what the bytes still to be read denote.
 */
module RleDecoding {
  import opened Bits
  import opened BitReading
  import opened BitPacking
  import opened Rle

  // ----- The denotation, one decoder step at a time -----

  lemma {:induction false} NothingTakenUp(value: nat, b: BitString, w: nat)
    ensures Repeat(value, 0) + DecodeLiterals(b, w, 0) == Decode(b, w)
  {
    hide Decode;
    assert Unpack(b, w, 0) == [];
    assert b[0..] == b;
  }

  /** What follows once the header `h` has been read. */
  function AfterHeader(h: Header, rest: BitString, w: nat): seq<nat> {
    if h.NoHeader? then []
    else if h.LiteralRun? then DecodeLiterals(rest, w, h.count)
    else if |rest| < ValueBits(w) then []
    else Repeat(Nat(rest[..ValueBits(w)]), h.count) + DecodeLiterals(rest[ValueBits(w)..], w, 0)
  }

  lemma {:induction false} DecodeUnfolds(b: BitString, w: nat)
    ensures var h := ReadHeader(b);
      Decode(b, w) == AfterHeader(h, if h.NoHeader? then [] else b[h.bits..], w)
  {
    hide ReadHeader, Nat;
    var h := ReadHeader(b);
    if h.RepeatedRun? && |b[h.bits..]| >= ValueBits(w) {
      var tail := b[h.bits..][ValueBits(w)..];
      NothingTakenUp(0, tail, w);
      assert Repeat(0, 0) + DecodeLiterals(tail, w, 0) == DecodeLiterals(tail, w, 0);
    }
  }

  lemma {:induction false} WholeUnfolds(b: BitString, w: nat)
    ensures var h := ReadHeader(b);
      Whole(b, w) == WholeAfterHeader(h, if h.NoHeader? then [] else b[h.bits..], w)
    ensures WholeLiterals(b, w, 0) == Whole(b, w)
  {
    hide ReadHeader;
    var h := ReadHeader(b);
    assert b[0..] == b;
    if h.RepeatedRun? && |b[h.bits..]| >= ValueBits(w) {
      var tail := b[h.bits..][ValueBits(w)..];
      assert tail[0..] == tail;
    }
  }

  function WholeAfterHeader(h: Header, rest: BitString, w: nat): nat {
    if h.NoHeader? then 0
    else if h.LiteralRun? then WholeLiterals(rest, w, h.count)
    else if |rest| < ValueBits(w) then 0
    else h.count + WholeLiterals(rest[ValueBits(w)..], w, 0)
  }

  /** Taking `k` of `n` literals leaves the others. */
  lemma {:induction false} LiteralsSplit(b: BitString, w: nat, n: nat, k: nat)
    requires k <= n && Span(k, w) <= |b|
    ensures DecodeLiterals(b, w, n) == Unpack(b, w, k) + DecodeLiterals(b[Span(k, w)..], w, n - k)
  {
    hide Decode, DecodeLiterals, Unpack, Available, Span;
    var m := Available(n, w, |b|);
    var later := b[Span(k, w)..];
    AvailableSplit(n, w, |b|, k);
    SpanAdd(k, m - k, w);
    UnpackSplit(b, w, k, m - k);
    var tail := if m == n then Decode(b[Span(m, w)..], w) else [];
    LiteralsAre(b, w, n, m, tail);
    DropDrop(b, Span(k, w), Span(m - k, w));
    LiteralsAre(later, w, n - k, m - k, tail);
    Associate(Unpack(b, w, k), Unpack(later, w, m - k), tail);
  }

  lemma {:induction false} LiteralsAre(b: BitString, w: nat, n: nat, m: nat, tail: seq<nat>)
    requires m == Available(n, w, |b|)
    requires tail == if m == n then Decode(b[Span(m, w)..], w) else []
    ensures DecodeLiterals(b, w, n) == Unpack(b, w, m) + tail
  {
    hide Decode, Unpack, Available, Span;
  }

  lemma {:induction false} AvailableSplit(n: nat, w: nat, remaining: nat, k: nat)
    requires k <= n && Span(k, w) <= remaining
    ensures k <= Available(n, w, remaining)
    ensures Available(n - k, w, remaining - Span(k, w)) == Available(n, w, remaining) - k
  {
    hide Available, Span;
    var m := Available(n - k, w, remaining - Span(k, w));
    SpanAdd(k, m, w);
    SpanAdd(k, m + 1, w);
    AvailableUnique(n, w, remaining, k + m);
  }

  lemma {:induction false} LowestBit(b: BitString)
    requires b != []
    ensures b[0] == (Nat(b) % 2 == 1)
  {
    var half := Nat(b[1..]);
    QuotientUnique(Nat(b), 2, half, if b[0] then 1 else 0);
  }

  class RleDecoder {
    const bit_reader: BitReader
    var bit_width: nat
    var current_value: BitString
    var repeat_count: nat
    var literal_count: nat
    ghost var run_end: nat  // the byte where the current literal run ends

    ghost predicate Valid()
      reads this, bit_reader
    {
      && bit_reader.Valid() && bit_width <= 64
      && |current_value| == 64 && Fits(current_value, ValueBits(bit_width))
      && (repeat_count > 0 ==> literal_count == 0)
      && bit_reader.Pos() + Span(literal_count, bit_width) == 8 * run_end
    }

    /** The values the rest of the stream denotes. */
    ghost function Pending(): seq<nat>
      requires Valid()
      reads this, bit_reader
    {
      Repeat(Nat(current_value), repeat_count) + DecodeLiterals(bit_reader.Rest(), bit_width, literal_count)
    }

    /** How many of them come before a literal run that is cut off. */
    ghost function Left(): nat
      requires Valid()
      reads this, bit_reader
    {
      repeat_count + WholeLiterals(bit_reader.Rest(), bit_width, literal_count)
    }

    lemma {:induction false} LeftAtMost()
      requires Valid()
      ensures Left() <= |Pending()|
    {
      hide Decode, Whole, Unpack, Available, Span, Nat;
      var rest := bit_reader.Rest();
      if Available(literal_count, bit_width, |rest|) == literal_count {
        WholeAtMost(rest[Span(literal_count, bit_width)..], bit_width);
      }
    }

    constructor (buffer: BitString, buffer_len: nat, bit_width: nat)
      requires |buffer| == 8 * buffer_len && bit_width <= 64
      ensures Valid() && fresh(bit_reader) && this.bit_width == bit_width
      ensures Pending() == Decode(buffer, bit_width) && Left() == Whole(buffer, bit_width)
    {
      bit_reader := new BitReader(buffer, buffer_len);
      this.bit_width := bit_width;
      current_value := Zeros(64);
      repeat_count := 0;
      literal_count := 0;
      run_end := 0;
      new;
      NothingTakenUp(Nat(current_value), buffer, bit_width);
      WholeUnfolds(buffer, bit_width);
      assert bit_reader.Rest() == buffer;
    }

    /** Read a run header at the byte boundary the reader stands on. */
    method NextHeader() returns (ok: bool, is_literal: bool, count: nat)
      requires bit_reader.Valid() && bit_reader.Pos() == 8 * run_end
      modifies bit_reader
      ensures bit_reader.Valid()
      ensures var h := ReadHeader(old(bit_reader.Rest()));
        && ok == !h.NoHeader?
        && (ok ==>
          && is_literal == h.LiteralRun? && count == h.count && (is_literal ==> count % 8 == 0)
          && bit_reader.Rest() == old(bit_reader.Rest())[h.bits..]
          && bit_reader.NextByte() == bit_reader.Pos())
    {
      hide Pow2, Resize, Nat, BitReader.Valid, ReadHeader, VlqGroups;
      ghost var pos, rest := bit_reader.Pos(), bit_reader.Rest();
      bit_reader.RestIsLeft();
      assert bit_reader.NextByte() == pos;
      var got, indicator_value := bit_reader.GetVlqInt(32, 5);
      if !got {
        NoGroupsNoHeader(rest);
        return false, false, 0;
      }
      DropDrop(bit_reader.buffer, pos, bit_reader.Pos() - pos);
      LowestBit(indicator_value);
      HeaderOfGroups(rest, VlqGroups(rest, 5).value);
      is_literal := indicator_value[0];
      count := Nat(indicator_value) / 2;
      if is_literal {
        if count > INT32_MAX / 8 {
          return false, false, 0;
        }
        count := count * 8;
      }
      ok := true;
    }

    /** Take up the next run. */
    method NextCounts(sizeof_t: nat) returns (ok: bool)
      requires Valid() && repeat_count == 0 && literal_count == 0 && bit_width <= 8 * sizeof_t <= 64
      modifies this, bit_reader
      ensures ok ==> Valid() && bit_width == old(bit_width) && Pending() == old(Pending()) && Left() == old(Left())
      ensures ok ==> |bit_reader.Rest()| < |old(bit_reader.Rest())|
      ensures !ok ==> old(Pending()) == [] && old(Left()) == 0
    {
      hide ReadHeader, Decode, DecodeLiterals, Whole, WholeLiterals;
      ghost var rest := bit_reader.Rest();
      NothingTakenUp(Nat(current_value), rest, bit_width);
      DecodeUnfolds(rest, bit_width);
      WholeUnfolds(rest, bit_width);
      var is_literal, count;
      ok, is_literal, count := NextHeader();
      if !ok {
        return;
      }
      if is_literal {
        literal_count := count;
        ghost var bytes := WholeGroups(count, bit_width);
        run_end := CeilDiv8(bit_reader.Pos()) + bytes;
        assert Repeat(Nat(current_value), 0) == [];
      } else {
        repeat_count := count;
        ok := NextValue(sizeof_t);
      }
    }

    /** Read the value of a repeated run. */
    method NextValue(sizeof_t: nat) returns (ok: bool)
      requires bit_reader.Valid() && bit_reader.NextByte() == bit_reader.Pos()
      requires bit_width <= 8 * sizeof_t <= 64 && literal_count == 0
      requires |current_value| == 64 && Fits(current_value, ValueBits(bit_width))
      modifies bit_reader, `current_value, `run_end
      ensures ok == (|old(bit_reader.Rest())| >= ValueBits(bit_width))
      ensures ok ==> Valid()
      ensures ok ==> bit_reader.Rest() == old(bit_reader.Rest())[ValueBits(bit_width)..]
      ensures ok ==> Nat(current_value) == Nat(old(bit_reader.Rest())[..ValueBits(bit_width)])
    {
      hide Nat;
      ghost var pos := bit_reader.Pos();
      var stored;
      ok, stored := bit_reader.GetAligned(CeilDiv8(bit_width), sizeof_t);
      if ok {
        DropDrop(bit_reader.buffer, pos, |stored|);
        TakeOfDrop(bit_reader.buffer, pos, |stored|);
        current_value := stored + current_value[|stored|..];
        NatOfPrefix(current_value, |stored|);
        assert current_value[..|stored|] == stored;
        run_end := bit_reader.Pos() / 8;
      }
    }

    /** The values of the next `batch_size` places. If the stream denotes fewer, then those that
        come before a literal run that is cut off. */
    method GetBatch(out: array<nat>, batch_size: nat, sizeof_t: nat) returns (values_read: nat)
      requires Valid() && bit_width <= 8 * sizeof_t <= 64 && batch_size <= out.Length
      modifies this, bit_reader, out
      ensures values_read <= batch_size && values_read <= |old(Pending())|
      ensures out[..values_read] == old(Pending())[..values_read]
      ensures values_read == batch_size <==> batch_size <= |old(Pending())|
      ensures batch_size > |old(Pending())| ==> values_read == old(Left())
      ensures values_read == batch_size ==>
        && Valid() && bit_width == old(bit_width) && Pending() == old(Pending())[batch_size..]
        && Left() == Less(old(Left()), batch_size)
    {
      hide RleDecoder.Pending, RleDecoder.Left, BitReader.Valid, BitReader.Rest, Fits, Span;
      values_read := 0;
      ghost var all, whole := Pending(), Left();
      while values_read < batch_size
        invariant Valid() && bit_width == old(bit_width)
        invariant values_read <= batch_size && all == out[..values_read] + Pending()
        invariant Left() == Less(whole, values_read) && (batch_size > |all| ==> values_read + Left() == whole)
        decreases batch_size - values_read, |bit_reader.Rest()|
      {
        var remaining := batch_size - values_read;
        if repeat_count > 0 {
          var repeat_batch := TakeRepeats(out, values_read, remaining);
          values_read := values_read + repeat_batch;
        } else if literal_count > 0 {
          var literal_batch := Min(remaining, literal_count);
          var ok := TakeLiterals(out, values_read, literal_batch, sizeof_t);
          if !ok {
            return;
          }
          values_read := values_read + literal_batch;
        } else {
          var ok := NextCounts(sizeof_t);
          if !ok {
            return;
          }
        }
      }
    }

    /** Fill in values of the current repeated run. */
    method TakeRepeats(out: array<nat>, at: nat, remaining: nat) returns (repeat_batch: nat)
      requires Valid() && repeat_count > 0 && 0 < remaining && at + remaining <= out.Length
      modifies `repeat_count, out
      ensures Valid() && repeat_batch == Min(remaining, old(repeat_count))
      ensures out[..at + repeat_batch] + Pending() == old(out[..at]) + old(Pending())
      ensures repeat_batch + Left() == old(Left())
    {
      hide DecodeLiterals, Nat;
      repeat_batch := Min(remaining, repeat_count);
      var value := Nat(current_value);
      ghost var before, later := out[..at], DecodeLiterals(bit_reader.Rest(), bit_width, literal_count);
      forall i | 0 <= i < repeat_batch {
        out[at + i] := value;
      }
      repeat_count := repeat_count - repeat_batch;
      RepeatsSplit(value, repeat_batch, repeat_count, before, later);
      assert out[..at + repeat_batch] == before + Repeat(value, repeat_batch);
    }

    /** Unpack values of the current literal run. */
    method TakeLiterals(out: array<nat>, at: nat, literal_batch: nat, sizeof_t: nat) returns (ok: bool)
      requires Valid() && repeat_count == 0 && bit_width <= 8 * sizeof_t <= 64
      requires 0 < literal_batch <= literal_count && at + literal_batch <= out.Length
      modifies this, bit_reader, out
      ensures !ok ==> |old(Pending())| < literal_batch && old(Left()) == 0 && out[..at] == old(out[..at])
      ensures ok ==> Valid() && bit_width == old(bit_width) && Left() == Less(old(Left()), literal_batch)
      ensures ok && literal_batch == old(literal_count) ==> old(Left()) >= literal_batch
      ensures ok ==> out[..at + literal_batch] + Pending() == old(out[..at]) + old(Pending())
    {
      hide RleDecoder.Valid, RleDecoder.Pending, RleDecoder.Left;
      ok := UnpackLiterals(out, at, literal_batch, sizeof_t);
      if ok {
        OutParts(out, at, literal_batch);
        Associate(out[..at], out[at..at + literal_batch], Pending());
      }
    }

    method UnpackLiterals(out: array<nat>, at: nat, literal_batch: nat, sizeof_t: nat) returns (ok: bool)
      requires Valid() && repeat_count == 0 && bit_width <= 8 * sizeof_t <= 64
      requires 0 < literal_batch <= literal_count && at + literal_batch <= out.Length
      modifies this, bit_reader, out
      ensures out[..at] == old(out[..at]) && (!ok ==> |old(Pending())| < literal_batch && old(Left()) == 0)
      ensures ok ==> Valid() && Left() == Less(old(Left()), literal_batch)
      ensures ok && literal_batch == old(literal_count) ==> old(Left()) >= literal_batch
      ensures ok ==> Valid() && bit_width == old(bit_width) && out[at..at + literal_batch] + Pending() == old(Pending())
    {
      hide Unpack, DecodeLiterals, WholeLiterals, Available, Span, Fits, BitReader.Valid, RleDecoder.Pending;
      ghost var rest, pos := bit_reader.Rest(), bit_reader.Pos();
      bit_reader.RestIsLeft();
      PendingLiterals();
      var actual_read := bit_reader.GetBatch(bit_width, out, at, literal_batch, sizeof_t);
      if actual_read != literal_batch {
        AvailableShort(rest, bit_width, literal_count, literal_batch);
        return false;
      }
      bit_reader.RestIsLeft();
      LiteralsGoOn(bit_reader.buffer, pos, bit_width, literal_count, literal_batch);
      WholeGoesOn(bit_reader.buffer, pos, bit_width, literal_count, literal_batch);
      literal_count := literal_count - literal_batch;
      PendingLiterals();
      ok := true;
    }

    lemma {:induction false} PendingLiterals()
      requires Valid() && repeat_count == 0
      ensures Pending() == DecodeLiterals(bit_reader.Rest(), bit_width, literal_count)
    {
      hide DecodeLiterals, Nat;
      NoRepeats(Nat(current_value), DecodeLiterals(bit_reader.Rest(), bit_width, literal_count));
    }
  }

  lemma {:induction false} OutParts(out: array<nat>, at: nat, n: nat)
    requires at + n <= out.Length
    ensures out[..at + n] == out[..at] + out[at..at + n]
  {
  }

  /** After `k` literals of a run, the others come from behind them. */
  lemma {:induction false} LiteralsGoOn(buffer: BitString, pos: nat, w: nat, n: nat, k: nat)
    requires pos <= |buffer| && k <= n && Available(k, w, |buffer| - pos) == k
    ensures Span(n, w) == Span(k, w) + Span(n - k, w) && pos + Span(k, w) <= |buffer|
    ensures DecodeLiterals(buffer[pos..], w, n)
      == Unpack(buffer[pos..], w, k) + DecodeLiterals(buffer[pos + Span(k, w)..], w, n - k)
  {
    hide DecodeLiterals, Unpack, Available, Span;
    AvailableAllOf(k, w, |buffer| - pos);
    LiteralsSplit(buffer[pos..], w, n, k);
    SpanAdd(k, n - k, w);
    DropDrop(buffer, pos, Span(k, w));
  }

  /** What is left of `n` once `k` are gone. */
  function Less(n: nat, k: nat): nat {
    if n >= k then n - k else 0
  }

  lemma {:induction false} WholeGoesOn(buffer: BitString, pos: nat, w: nat, n: nat, k: nat)
    requires pos <= |buffer| && k <= n && Available(k, w, |buffer| - pos) == k
    ensures pos + Span(k, w) <= |buffer|
    ensures WholeLiterals(buffer[pos + Span(k, w)..], w, n - k) == Less(WholeLiterals(buffer[pos..], w, n), k)
    ensures k == n ==> WholeLiterals(buffer[pos..], w, n) >= n
  {
    hide Whole, Available, Span;
    AvailableAllOf(k, w, |buffer| - pos);
    AvailableSplit(n, w, |buffer| - pos, k);
    SpanAdd(k, n - k, w);
    DropDrop(buffer, pos, Span(k, w));
    if Available(n, w, |buffer| - pos) == n {
      AvailableAllOf(n, w, |buffer| - pos);
      DropDrop(buffer, pos, Span(n, w));
      DropDrop(buffer, pos + Span(k, w), Span(n - k, w));
    }
  }

  lemma {:induction false} NoRepeats(value: nat, later: seq<nat>)
    ensures Repeat(value, 0) + later == later
  {
  }

  lemma {:induction false} AvailableAllOf(n: nat, w: nat, remaining: nat)
    requires Available(n, w, remaining) == n
    ensures Span(n, w) <= remaining
  {
  }

  lemma {:induction false} WholeGroups(count: nat, w: nat) returns (bytes: nat)
    requires count % 8 == 0
    ensures Span(count, w) == 8 * bytes
  {
    SpanOfGroups(count / 8, w);
    bytes := Span(count / 8, w);
  }

  lemma {:induction false} RepeatsSplit(value: nat, k: nat, more: nat, before: seq<nat>, later: seq<nat>)
    ensures (before + Repeat(value, k)) + (Repeat(value, more) + later) == before + (Repeat(value, k + more) + later)
  {
    assert Repeat(value, k + more) == Repeat(value, k) + Repeat(value, more);
  }

  /** A literal run too short for the batch ends the stream before the batch is full. */
  lemma {:induction false} AvailableShort(b: BitString, w: nat, n: nat, k: nat)
    requires k <= n && Available(k, w, |b|) != k
    ensures |DecodeLiterals(b, w, n)| < k && WholeLiterals(b, w, n) == 0
  {
    var m := Available(n, w, |b|);
    if m >= k {
      SpanMonotonic(k, m, w);
    }
  }
}
