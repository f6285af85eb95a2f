/**
The fast unpackers: 32 values of one width at a time, read as 32-bit words.
One unpacker parametric in the width stands for the 32 unrolled ones.
 */
module BitPacking {
  import opened Bits

  lemma {:induction false} UnpackNone(b: BitString, w: nat)
    ensures Unpack(b, w, 0) == []
  {
  }

  /** Unpacking one more value. */
  lemma {:induction false} UnpackNext(b: BitString, w: nat, k: nat)
    requires Span(k, w) + w <= |b|
    ensures Span(k + 1, w) == Span(k, w) + w
    ensures Unpack(b, w, k + 1) == Unpack(b, w, k) + [Nat(b[Span(k, w)..Span(k, w) + w])]
  {
  }

  lemma {:induction false} WithinBlock(k: nat, w: nat)
    requires k < 32
    ensures Span(k, w) + w <= 32 * w
  {
    SpanMonotonic(k + 1, 32, w);
    SpanIsProduct(32, w);
  }

  /** `w` bits spanning two adjacent 32-bit words. */
  lemma {:induction false} AcrossWords(inp: BitString, word: nat, shift: nat, w: nat)
    requires shift <= 32 < shift + w <= 64 && 32 * word + 64 <= |inp|
    ensures inp[32 * word..32 * word + 32][shift..] + inp[32 * word + 32..32 * word + 64][..shift + w - 32]
         == inp[32 * word + shift..32 * word + shift + w]
  {
    var p := 32 * word;
    SliceOfSlice(inp, p, p + 32, shift, 32);
    SliceOfSlice(inp, p + 32, p + 64, 0, shift + w - 32);
    JoinSlices(inp, p + shift, p + 32, p + shift + w);
  }

  /** Load the next 32-bit word when the current one is used up. */
  method LoadWhenUsedUp(inp: BitString, w: nat, word: nat, shift: nat, inl: BitString)
    returns (word': nat, shift': nat, inl': BitString)
    requires 1 <= w && 32 * w <= |inp| && word < w && shift <= 32
    requires 32 * word + shift < 32 * w && inl == inp[32 * word..32 * word + 32]
    ensures word' < w && shift' < 32 && 32 * word' + shift' == 32 * word + shift
    ensures inl' == inp[32 * word'..32 * word' + 32]
  {
    word', shift', inl' := word, shift, inl;
    if shift == 32 {
      word', shift' := word + 1, 0;
      inl' := inp[32 * word'..32 * word' + 32];
    }
  }

  /** Take `w` bits from the current 32-bit word, and the rest from the next one if they cross. */
  method NextValue(inp: BitString, w: nat, word: nat, shift: nat, inl: BitString)
    returns (word': nat, shift': nat, inl': BitString, bits: BitString)
    requires 1 <= w <= 32 && 32 * w <= |inp| && shift < 32
    requires 32 * word + shift + w <= 32 * w && inl == inp[32 * word..32 * word + 32]
    ensures word' < w && shift' <= 32 && 32 * word' + shift' == 32 * word + shift + w
    ensures inl' == inp[32 * word'..32 * word' + 32]
    ensures bits == inp[32 * word + shift..32 * word + shift + w]
  {
    if shift + w <= 32 {
      word', shift', inl' := word, shift + w, inl;
      bits := inl[shift..shift + w];
      SliceOfSlice(inp, 32 * word, 32 * word + 32, shift, shift + w);
    } else {
      word', shift' := word + 1, shift + w - 32;
      inl' := inp[32 * word'..32 * word' + 32];
      bits := inl[shift..] + inl'[..shift'];
      AcrossWords(inp, word, shift, w);
    }
  }

  /** Unpack 32 values of width `w` from the 32-bit words at the front of `inp`. */
  method UnpackBlock(inp: BitString, w: nat, out: array<nat>, start: nat)
    requires 1 <= w <= 32 && Span(32, w) <= |inp| && start + 32 <= out.Length
    modifies out
    ensures out[start..start + 32] == Unpack(inp, w, 32)
    ensures forall i :: 0 <= i < out.Length && !(start <= i < start + 32) ==> out[i] == old(out[i])
  {
    UnpackNone(inp, w);
    SpanIsProduct(32, w);
    SpanIsProduct(0, w);
    hide Unpack, Nat, Span;
    var word: nat, shift: nat, inl := 0, 0, inp[..32];
    for k := 0 to 32
      invariant word < w && shift <= 32 && 32 * word + shift == Span(k, w) <= |inp|
      invariant inl == inp[32 * word..32 * word + 32]
      invariant out[start..start + k] == Unpack(inp, w, k)
      invariant forall i :: 0 <= i < out.Length && !(start <= i < start + k) ==> out[i] == old(out[i])
    {
      WithinBlock(k, w);
      word, shift, inl := LoadWhenUsedUp(inp, w, word, shift, inl);
      var bits;
      word, shift, inl, bits := NextValue(inp, w, word, shift, inl);
      PlaceValue(inp, w, out, start, k, bits);
    }
  }

  /** Store the value of `bits`, the `k`-th of this block. */
  method PlaceValue(ghost inp: BitString, ghost w: nat, out: array<nat>, start: nat, k: nat, bits: BitString)
    requires start + k < out.Length && Span(k, w) + w <= |inp| && bits == inp[Span(k, w)..Span(k, w) + w]
    requires out[start..start + k] == Unpack(inp, w, k)
    modifies out
    ensures Span(k + 1, w) == Span(k, w) + w
    ensures out[start..start + k + 1] == Unpack(inp, w, k + 1)
    ensures forall i :: 0 <= i < out.Length && i != start + k ==> out[i] == old(out[i])
  {
    UnpackNext(inp, w, k);
    hide Unpack, Nat;
    out[start + k] := Nat(bits);
    assert out[start..start + k + 1] == out[start..start + k] + [out[start + k]];
  }

  /** Unpack as many whole blocks of 32 values as `batch_size` holds. */
  method Unpack32(inp: BitString, out: array<nat>, start: nat, batch_size: nat, num_bits: nat) returns (n: nat)
    requires num_bits <= 32 && start + batch_size <= out.Length && Span(batch_size, num_bits) <= |inp|
    modifies out
    ensures n == batch_size / 32 * 32 && Span(n, num_bits) <= |inp|
    ensures out[start..start + n] == Unpack(inp, num_bits, n)
    ensures forall i :: 0 <= i < out.Length && !(start <= i < start + n) ==> out[i] == old(out[i])
  {
    UnpackNone(inp, num_bits);
    SpanIsProduct(0, num_bits);
    hide Unpack, Nat, Span;
    n := 0;
    var at: nat := 0;
    var num_loops := batch_size / 32;
    for i := 0 to num_loops
      invariant n == 32 * i && at == Span(n, num_bits) <= |inp|
      invariant out[start..start + n] == Unpack(inp, num_bits, n)
      invariant forall j :: 0 <= j < out.Length && !(start <= j < start + n) ==> out[j] == old(out[j])
    {
      AddBlock(inp, out, start, n, at, batch_size, num_bits);
      n, at := n + 32, at + 32 * num_bits;
    }
  }

  /** Unpack one more block after the `n` values that are there. */
  method AddBlock(inp: BitString, out: array<nat>, start: nat, n: nat, at: nat, ghost batch: nat, num_bits: nat)
    requires num_bits <= 32 && n + 32 <= batch && start + batch <= out.Length
    requires Span(batch, num_bits) <= |inp| && at == Span(n, num_bits) <= |inp|
    requires out[start..start + n] == Unpack(inp, num_bits, n)
    modifies out
    ensures Span(n + 32, num_bits) == at + 32 * num_bits <= |inp|
    ensures out[start..start + (n + 32)] == Unpack(inp, num_bits, n + 32)
    ensures forall j :: 0 <= j < out.Length && !(start + n <= j < start + n + 32) ==> out[j] == old(out[j])
  {
    BlockStep(inp, num_bits, n, batch);
    hide Unpack, Nat, Span;
    NextBlock(inp[at..], out, start + n, num_bits);
    ghost var done := old(out[start..start + n]);
    assert out[start..start + (n + 32)] == done + out[start + n..start + n + 32];
  }

  lemma {:induction false} BlockStep(inp: BitString, w: nat, n: nat, batch: nat)
    requires n + 32 <= batch && Span(batch, w) <= |inp|
    ensures Span(n, w) + 32 * w == Span(n + 32, w) <= |inp|
    ensures Span(32, w) == 32 * w <= |inp[Span(n, w)..]|
    ensures Unpack(inp, w, n + 32) == Unpack(inp, w, n) + Unpack(inp[Span(n, w)..], w, 32)
  {
    hide Unpack;
    SpanMonotonic(n + 32, batch, w);
    SpanAdd(n, 32, w);
    SpanIsProduct(32, w);
    UnpackSplit(inp, w, n, 32);
  }

  /** One iteration of `unpack32`: the unpacker of this width. */
  method NextBlock(block: BitString, out: array<nat>, start: nat, num_bits: nat)
    requires num_bits <= 32 && start + 32 <= out.Length && Span(32, num_bits) <= |block|
    modifies out
    ensures out[start..start + 32] == Unpack(block, num_bits, 32)
    ensures forall i :: 0 <= i < out.Length && !(start <= i < start + 32) ==> out[i] == old(out[i])
  {
    if num_bits == 0 {
      forall k | 0 <= k < 32 {
        out[start + k] := 0;
      }
      UnpackOfNothing(block, 32);
      assert out[start..start + 32] == seq(32, _ => 0);
    } else {
      UnpackBlock(block, num_bits, out, start);
    }
  }

  /** Zero-width values are zeros. */
  lemma {:induction false} UnpackOfNothing(b: BitString, n: nat)
    ensures Span(n, 0) == 0
    ensures Unpack(b, 0, n) == seq(n, _ => 0)
  {
    SpanOfOnes(n);
    if n > 0 {
      UnpackOfNothing(b, n - 1);
    }
  }
}
