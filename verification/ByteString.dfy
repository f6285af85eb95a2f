/** Bytes, and memory as the bits of its bytes. */
module ByteStrings {
  import opened Bits

  newtype Byte = x: int | 0 <= x < 256

  /** The bits of the bytes, in order. */
  function BitsOf(bytes: seq<Byte>): (b: BitString)
    ensures |b| == 8 * |bytes|
  {
    if bytes == [] then [] else ToBits(bytes[0] as nat, 8) + BitsOf(bytes[1..])
  }

  /** The bytes that `n` bytes of memory hold. */
  function BytesOf(b: BitString, n: nat): (bytes: seq<Byte>)
    requires |b| == 8 * n
    ensures |bytes| == n
  {
    if n == 0 then [] else
      NatBound(b[..8]);
      Pow2Values();
      [Nat(b[..8]) as Byte] + BytesOf(b[8..], n - 1)
  }

  lemma {:induction false} BitsOfBytesOf(b: BitString, n: nat)
    requires |b| == 8 * n
    ensures BitsOf(BytesOf(b, n)) == b
  {
    if n > 0 {
      hide Nat, ToBits;
      NatBound(b[..8]);
      Pow2Values();
      ToBitsOfNat(b[..8]);
      BitsOfBytesOf(b[8..], n - 1);
      var bytes := BytesOf(b, n);
      assert bytes[1..] == BytesOf(b[8..], n - 1);
    }
  }
}
