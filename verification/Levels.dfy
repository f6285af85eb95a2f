/**
Levels in a data page: the length and bytes of the hybrid encoded levels, and their decoder.
 */
module LevelCoding {
  import opened Options
  import opened Bits
  import opened Rle
  import opened RleDecoding
  import opened RleEncoding
  import opened RleBuilding

  /** The page bytes begin with levels: nothing when the bit width is 0, all levels being 0 then,
      or else a length of four bytes and as many bytes of levels. */
  ghost predicate HoldsLevels(bits: BitString, w: nat, levels: seq<nat>) {
    if w == 0 then forall i :: 0 <= i < |levels| ==> levels[i] == 0
    else
      && 32 <= |bits| && 32 + 8 * Nat(bits[..32]) <= |bits| && Nat(bits[..32]) < 0x8000_0000
      && levels <= Decode(bits[32..32 + 8 * Nat(bits[..32])], w)
  }

  /** The number of bytes before the values or the next levels. */
  function LevelBytes(bits: BitString, w: nat): nat {
    if w == 0 || |bits| < 32 then 0 else 4 + Nat(bits[..32])
  }

  /** The length check lets a length pass that ends up to four bytes behind the page. */
  predicate Overlong(bits: BitString, size: nat) {
    32 <= |bits| && Nat(bits[..32]) <= size < 4 + Nat(bits[..32])
  }

  // ----- Encoder -----

  /** The bits that `n` levels may take in a page. */
  function LevelRoom(n: nat): nat {
    32 + 72 * (n + 7)
  }

  class LevelEncoder {
    const bit_width: nat
    const builder: RleBuilder
    ghost var levels: seq<nat>  // the levels put since the last page
    ghost var Repr: set<object>

    ghost predicate Shape()
      reads this, builder
    {
      && builder.bit_width == bit_width <= 32
      && Repr == {this, builder, builder.encoder, builder.encoder.bit_writer, builder.buffer}
    }

    ghost predicate Valid()
      reads this, Repr
    {
      this in Repr && Encoding()
    }

    ghost predicate Encoding()
      reads this, Repr
    {
      && builder in Repr && builder.encoder in Repr && builder.encoder.bit_writer in Repr && builder.buffer in Repr
      && Shape() && builder.Valid() && levels == builder.Input()
    }

    constructor (max_level: nat)
      requires max_level < 0x1_0000_0000
      ensures Valid() && fresh(Repr) && levels == [] && bit_width == BitWidth(max_level)
    {
      hide RleBuilder.Valid, Pow2;
      Pow2Values();
      BitWidthAtMost(max_level, 32);
      bit_width := BitWidth(max_level);
      builder := new RleBuilder(BitWidth(max_level));
      levels := [];
      new;
      Repr := {this, builder, builder.encoder, builder.encoder.bit_writer, builder.buffer};
    }

    method Put(level: nat)
      requires Valid() && level < Pow2(bit_width) && Trailing(levels, level) < RepeatLimit(bit_width)
      modifies Repr
      ensures Valid() && fresh(Repr - old(Repr)) && levels == old(levels) + [level]
    {
      hide RleEncoder.Valid, Pow2, Expand, Serialize, AllReadable, RunsFit, Trailing;
      TrailingSuffix(Expand(builder.done), builder.encoder.input, level);
      TrailingCanPut(builder.encoder, level);
      builder.Put(level);
      levels := levels + [level];
      Repr := {this, builder, builder.encoder, builder.encoder.bit_writer, builder.buffer};
    }

    /** The bytes of the levels, behind their length; the levels of the next page start over. They
        can be read unless a level comes too often in a row. */
    method Flush() returns (part: BitString)
      requires Valid()
      modifies Repr
      ensures Valid() && fresh(Repr - old(Repr)) && levels == []
      ensures bit_width == 0 ==> part == []
      ensures bit_width > 0 && RunsFit(old(levels)) ==> IsLevelPart(part, bit_width, old(levels))
      ensures |part| <= LevelRoom(|old(levels)|)
    {
      hide RleEncoder.Valid, Expand, Serialize, ToBits, Decode, AllValid, AllReadable, RunsFit;
      part := [];
      if bit_width > 0 {
        var view, len;
        ghost var runs, padding;
        view, len, runs, padding := builder.View();
        SerializeRoom(runs, bit_width);
        part := ToBits(len, 32) + view;
        Parts(ToBits(len, 32), view);
      }
      builder.Clear();
      levels := [];
      Repr := {this, builder, builder.encoder, builder.encoder.bit_writer, builder.buffer};
    }
  }

  /** A length of four bytes, as far as it fits, and the bytes of the levels. */
  ghost predicate IsLevelPart(part: BitString, w: nat, levels: seq<nat>) {
    && 32 <= |part| && |part| == 32 + 8 * ((|part| - 32) / 8)
    && part[..32] == ToBits((|part| - 32) / 8, 32) && levels <= Decode(part[32..], w)
  }

  /** With fewer than 2^31 bytes it is read back from the start of any page. */
  lemma {:induction false} LevelPartHolds(part: BitString, w: nat, levels: seq<nat>, rest: BitString)
    requires w > 0 && IsLevelPart(part, w, levels) && |part| < 8 * 0x8000_0000
    ensures HoldsLevels(part + rest, w, levels) && 8 * LevelBytes(part + rest, w) == |part|
  {
    hide Decode, Nat, ToBits;
    var len := (|part| - 32) / 8;
    Pow2Values();
    NatOfToBits(len, 32);
    var all := part + rest;
    assert all[..32] == part[..32] && all[32..32 + 8 * len] == part[32..];
  }

  // ----- Decoder -----

  class LevelDecoder {
    const bit_width: nat
    var rle: RleDecoder?
    var num_values: nat
    var values_read: nat
    ghost var levels: seq<nat>  // the levels of the page that have not been read
    ghost var Repr: set<object>

    ghost predicate Valid()
      reads this, Repr
    {
      this in Repr && Decoding()
    }

    ghost predicate Decoding()
      reads this, Repr
    {
      && bit_width <= 32
      && values_read <= num_values && |levels| == num_values - values_read
      && if bit_width == 0 then forall i :: 0 <= i < |levels| ==> levels[i] == 0
         else
           && rle != null && rle in Repr && rle.bit_reader in Repr
           && rle.Valid() && rle.bit_width == bit_width && levels <= rle.Pending()
    }

    constructor (max_level: nat)
      requires max_level < 0x1_0000_0000
      ensures fresh(Repr) && this in Repr && bit_width == BitWidth(max_level) <= 32
    {
      Pow2Values();
      BitWidthAtMost(max_level, 32);
      bit_width := BitWidth(max_level);
      rle, num_values, values_read, levels := null, 0, 0, [];
      Repr := {this};
    }

    /** Turn to the levels at the start of a page; the number of bytes they take, or nothing when
        the page is too short for them. */
    method ResetV1(buffer: BitString, size: nat, num_values: nat, ghost page_levels: seq<nat>) returns (n_read: Option<nat>)
      requires this in Repr && bit_width <= 32 && |buffer| == 8 * size && (bit_width > 0 ==> !Overlong(buffer, size))
      modifies Repr
      ensures fresh(Repr - old(Repr)) && this in Repr
      ensures n_read.None? <==>
        bit_width > 0 && (size < 4 || Nat(buffer[..32]) >= 0x8000_0000 || Nat(buffer[..32]) > size)
      ensures n_read.Some? ==> n_read.value == LevelBytes(buffer, bit_width)
      ensures HoldsLevels(buffer, bit_width, page_levels) && |page_levels| == num_values ==>
        n_read.Some? && Valid() && levels == page_levels
    {
      hide Decode, Nat, RleDecoder.Valid, RleDecoder.Pending;
      this.num_values, values_read, levels := num_values, 0, page_levels;
      if bit_width == 0 {
        return Some(0);
      }
      if size < 4 {
        return None;
      }
      var len := Nat(buffer[..32]);
      if len >= 0x8000_0000 || len > size {
        return None;
      }
      rle := new RleDecoder(buffer[32..32 + 8 * len], len, bit_width);
      Repr := Repr + {rle, rle.bit_reader};
      return Some(4 + len);
    }

    /** The next `n` levels, fewer at the end of the page. */
    method ReadBatch(n: nat) returns (out: seq<nat>)
      requires Valid()
      modifies Repr
      ensures Valid() && Repr == old(Repr)
      ensures var k := Min(n, |old(levels)|); out == old(levels)[..k] && levels == old(levels)[k..]
    {
      hide Decode, RleDecoder.Valid, RleDecoder.Pending;
      var k := Min(n, num_values - values_read);
      var batch := new nat[k];
      if bit_width == 0 {
        forall i | 0 <= i < k {
          batch[i] := 0;
        }
        out := batch[..];
      } else {
        PrefixParts(levels, rle.Pending(), k);
        var n_read := rle.GetBatch(batch, k, 4);
        assert n_read == k;
        out := batch[..k];
      }
      values_read := values_read + k;
      levels := levels[k..];
    }
  }

  lemma {:induction false} PrefixParts(a: seq<nat>, b: seq<nat>, k: nat)
    requires a <= b && k <= |a|
    ensures b[..k] == a[..k] && a[k..] <= b[k..]
  {
  }
}
