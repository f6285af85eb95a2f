/**
Machine words and memory as sequences of bits, least significant bit first.

The codecs modelled here run on little-endian words: `memcpy` of a word stores its
bits in this order, so a byte stream is the concatenation of the bits of its bytes
and a shift or a mask is a re-indexing. `Nat` and `ToBits` convert to and from
numbers; every truncation to a machine width is an explicit `ToBits(_, width)`.
 */
module Bits {

  type BitString = seq<bool>

  /** A 64-bit machine word. */
  type Word = w: seq<bool> | |w| == 64 witness seq(64, _ => false)

  function Min(a: int, b: int): int {
    if a <= b then a else b
  }

  function Max(a: int, b: int): int {
    if a <= b then b else a
  }

  function Pow2(n: nat): (p: nat)
    ensures p > 0
  {
    if n == 0 then 1 else 2 * Pow2(n - 1)
  }

  function CeilDiv8(bits: nat): nat {
    (bits + 7) / 8
  }

  lemma {:induction false} BytesAndBits(bytes: nat, bits: nat)
    ensures CeilDiv8(8 * bytes + bits) == bytes + CeilDiv8(bits)
  {
  }

  function Zeros(n: nat): (z: BitString)
    ensures |z| == n && forall i :: 0 <= i < n ==> !z[i]
  {
    seq(n, _ => false)
  }

  /** The number a bit string denotes. */
  function Nat(b: BitString): nat {
    if b == [] then 0 else (if b[0] then 1 else 0) + 2 * Nat(b[1..])
  }

  /** The low `w` bits of `n`. */
  function ToBits(n: nat, w: nat): (b: BitString)
    ensures |b| == w
  {
    if w == 0 then [] else [n % 2 == 1] + ToBits(n / 2, w - 1)
  }

  function Or(a: BitString, b: BitString): (r: BitString)
    requires |a| == |b|
    ensures |r| == |a| && forall i :: 0 <= i < |a| ==> r[i] == (a[i] || b[i])
  {
    seq(|a|, i requires 0 <= i < |a| => a[i] || b[i])
  }

  function Xor(a: BitString, b: BitString): (r: BitString)
    requires |a| == |b|
    ensures |r| == |a| && forall i :: 0 <= i < |a| ==> r[i] == (a[i] != b[i])
  {
    seq(|a|, i requires 0 <= i < |a| => a[i] != b[i])
  }

  /** `a << n`, dropping the bits shifted out at the top. */
  function Shl(a: BitString, n: nat): (r: BitString)
    ensures |r| == |a| && forall i :: 0 <= i < |a| ==> r[i] == (n <= i && a[i - n])
  {
    seq(|a|, i requires 0 <= i < |a| => n <= i && a[i - n])
  }

  /** `a >> n` on an unsigned word. */
  function Shr(a: BitString, n: nat): (r: BitString)
    ensures |r| == |a| && forall i :: 0 <= i < |a| ==> r[i] == (i + n < |a| && a[i + n])
  {
    seq(|a|, i requires 0 <= i < |a| => i + n < |a| && a[i + n])
  }

  /** The `n` least significant bits of `a`, the others cleared. */
  function TrailingBits(a: BitString, n: nat): (r: BitString)
    ensures |r| == |a| && forall i :: 0 <= i < |a| ==> r[i] == (i < n && a[i])
  {
    seq(|a|, i requires 0 <= i < |a| => i < n && a[i])
  }

  /** No bit at position `n` or above is set. */
  predicate Fits(a: BitString, n: nat) {
    forall i :: n <= i < |a| ==> !a[i]
  }

  /** Truncate or zero-extend to `n` bits. */
  function Resize(a: BitString, n: nat): (r: BitString)
    ensures |r| == n
  {
    if n <= |a| then a[..n] else a + Zeros(n - |a|)
  }

  /** Pad with zeros to the next byte boundary. */
  function Pad8(s: BitString): (r: BitString)
    ensures |r| == 8 * CeilDiv8(|s|)
    ensures |s| % 8 == 0 ==> r == s
    ensures s <= r
  {
    s + Zeros(8 * CeilDiv8(|s|) - |s|)
  }

  // ----- Slices -----

  lemma {:induction false} JoinSlices<T>(s: seq<T>, a: nat, b: nat, c: nat)
    requires a <= b <= c <= |s|
    ensures s[a..b] + s[b..c] == s[a..c]
  {
  }

  lemma {:induction false} SliceOfSlice<T>(s: seq<T>, a: nat, b: nat, i: nat, j: nat)
    requires a <= b <= |s| && i <= j <= b - a
    ensures s[a..b][i..j] == s[a + i..a + j]
  {
    var t := s[a..b];
    var u, v := t[i..j], s[a + i..a + j];
    forall k | 0 <= k < |u| ensures u[k] == v[k] {
      assert u[k] == t[i + k];
    }
    assert u == v;
  }

  lemma {:induction false} DropDrop<T>(s: seq<T>, a: nat, i: nat)
    requires a + i <= |s|
    ensures s[a..][i..] == s[a + i..]
  {
  }

  lemma {:induction false} DropOfTake<T>(s: seq<T>, a: nat, n: nat)
    requires a <= n <= |s|
    ensures s[..n][a..] == s[a..][..n - a]
  {
  }

  lemma {:induction false} TakeOfDrop<T>(s: seq<T>, a: nat, n: nat)
    requires a + n <= |s|
    ensures s[a..][..n] == s[a..a + n]
  {
  }

  lemma {:induction false} SliceOfDrop<T>(s: seq<T>, a: nat, i: nat, j: nat)
    requires i <= j && a + j <= |s|
    ensures s[a..][i..j] == s[a + i..a + j]
  {
    var t := s[a..];
    var u, v := t[i..j], s[a + i..a + j];
    forall k | 0 <= k < |u| ensures u[k] == v[k] {
      assert u[k] == t[i + k];
    }
    assert u == v;
  }

  lemma {:induction false} Associate<T>(a: seq<T>, b: seq<T>, c: seq<T>)
    ensures (a + b) + c == a + (b + c)
  {
  }

  lemma {:induction false} Parts<T>(a: seq<T>, b: seq<T>)
    ensures (a + b)[..|a|] == a
    ensures (a + b)[|a|..] == b
  {
    var ab := a + b;
    assert ab[..|a|] == a;
    assert ab[|a|..] == b;
  }

  // ----- Conversions are inverse to each other -----

  lemma {:induction false} NatBound(b: BitString)
    ensures Nat(b) < Pow2(|b|)
  {
    if b == [] {
    } else {
      NatBound(b[1..]);
    }
  }

  lemma {:induction false} NatOfToBits(n: nat, w: nat)
    ensures n < Pow2(w) ==> Nat(ToBits(n, w)) == n
    ensures Nat(ToBits(n, w)) <= n
  {
    if w == 0 {
    } else {
      NatOfToBits(n / 2, w - 1);
      assert ToBits(n, w)[1..] == ToBits(n / 2, w - 1);
    }
  }

  lemma {:induction false} ToBitsOfNat(b: BitString)
    ensures ToBits(Nat(b), |b|) == b
  {
    if b == [] {
    } else {
      ToBitsOfNat(b[1..]);
      assert b == [b[0]] + b[1..];
    }
  }

  lemma {:induction false} NatOfZeros(b: BitString)
    requires forall i :: 0 <= i < |b| ==> !b[i]
    ensures Nat(b) == 0
  {
    if b != [] {
      NatOfZeros(b[1..]);
    }
  }

  lemma {:induction false} NatZeroIff(b: BitString)
    ensures Nat(b) == 0 <==> forall i :: 0 <= i < |b| ==> !b[i]
  {
    if b == [] {
    } else {
      NatZeroIff(b[1..]);
      assert forall i :: 0 <= i < |b| - 1 ==> b[1..][i] == b[i + 1];
      if Nat(b) == 0 {
        forall i | 0 <= i < |b| ensures !b[i] {
          if i > 0 { assert !b[1..][i - 1]; }
        }
      }
    }
  }

  lemma {:induction false} NatAppend(a: BitString, b: BitString)
    ensures Nat(a + b) == Nat(a) + Pow2(|a|) * Nat(b)
  {
    if a == [] {
      assert a + b == b;
    } else {
      NatAppend(a[1..], b);
      assert (a + b)[1..] == a[1..] + b;
      assert (a + b)[0] == a[0];
      calc {
        2 * (Pow2(|a[1..]|) * Nat(b));
        (2 * Pow2(|a[1..]|)) * Nat(b);
        Pow2(|a|) * Nat(b);
      }
    }
  }

  /** Clearing or dropping zero bits at the top keeps the number. */
  lemma {:induction false} NatOfPrefix(b: BitString, n: nat)
    requires n <= |b| && Fits(b, n)
    ensures Nat(b[..n]) == Nat(b)
  {
    assert b == b[..n] + b[n..];
    NatAppend(b[..n], b[n..]);
    NatOfZeros(b[n..]);
  }

  lemma {:induction false} NatOfResize(b: BitString, n: nat)
    requires |b| <= n || Fits(b, n)
    ensures Nat(Resize(b, n)) == Nat(b)
  {
    if n <= |b| {
      if n < |b| { NatOfPrefix(b, n); } else { assert b[..n] == b; }
    } else {
      NatAppend(b, Zeros(n - |b|));
      NatOfZeros(Zeros(n - |b|));
    }
  }

  lemma {:induction false} Pow2Add(a: nat, b: nat)
    ensures Pow2(a + b) == Pow2(a) * Pow2(b)
  {
    if a > 0 {
      Pow2Add(a - 1, b);
      DoubleProduct(Pow2(a - 1), Pow2(b));
    }
  }

  lemma {:induction false} DoubleProduct(x: nat, y: nat)
    ensures 2 * (x * y) == (2 * x) * y
  {
  }

  lemma {:induction false} Pow2Monotonic(a: nat, b: nat)
    requires a <= b
    ensures Pow2(a) <= Pow2(b)
  {
    if a < b { Pow2Monotonic(a, b - 1); }
  }

  lemma {:induction false} Pow2Values()
    ensures Pow2(7) == 128 && Pow2(8) == 256 && Pow2(28) == 0x1000_0000
    ensures Pow2(16) == 0x1_0000 && Pow2(30) == 0x4000_0000 && Pow2(31) == 0x8000_0000
    ensures Pow2(32) == 0x1_0000_0000 && Pow2(64) == 0x1_0000_0000_0000_0000
  {
    assert Pow2(4) == 16;
    Pow2Add(4, 4);
    Pow2Add(8, 8);
    Pow2Add(16, 16);
    Pow2Add(32, 32);
  }

  /** `n` shifted right by `a` places. */
  function High(n: nat, a: nat): nat {
    if a == 0 then n else High(n / 2, a - 1)
  }

  /** The low bits of a number, then the bits of the rest. */
  lemma {:induction false} ToBitsSplit(n: nat, a: nat, b: nat)
    ensures ToBits(n, a + b) == ToBits(n, a) + ToBits(High(n, a), b)
  {
    if a > 0 {
      ToBitsSplit(n / 2, a - 1, b);
    }
  }

  lemma {:induction false} HighOfSmall(n: nat, a: nat)
    requires n < Pow2(a)
    ensures High(n, a) == 0
  {
    if a > 0 {
      HighOfSmall(n / 2, a - 1);
    }
  }

  lemma {:induction false} ProductsApart(q: int, q': int, d: int, r: int, r': int)
    requires 0 <= r < d && 0 <= r' < d && q * d + r == q' * d + r'
    ensures q == q' && r == r'
  {
    assert q * d == (q - q') * d + q' * d;
    if q - q' >= 1 {
      MulAtLeast(q - q', d);
    }
    assert q' * d == (q' - q) * d + q * d;
    if q' - q >= 1 {
      MulAtLeast(q' - q, d);
    }
  }

  lemma {:induction false} MulAtLeast(a: int, d: int)
    requires a >= 1 && d >= 0
    ensures a * d >= d
  {
  }

  lemma {:induction false} QuotientUnique(n: int, d: int, q: int, r: int)
    requires d > 0 && 0 <= r < d && n == q * d + r
    ensures n / d == q && n % d == r
  {
    var q' := n / d;
    var r' := n % d;
    assert n == q' * d + r' && 0 <= r' < d;
    ProductsApart(q, q', d, r, r');
  }

  /** Bits above the width of a number are zero. */
  lemma {:induction false} ToBitsFits(n: nat, w: nat, k: nat)
    requires n < Pow2(k)
    ensures Fits(ToBits(n, w), k)
  {
    if k < w {
      ToBitsSplit(n, k, w - k);
      HighOfSmall(n, k);
      ToBitsOfZero(w - k);
      var b := ToBits(n, w);
      forall i | k <= i < |b| ensures !b[i] {
        assert b[i] == ToBits(0, w - k)[i - k];
      }
    }
  }

  lemma {:induction false} ToBitsOfZero(w: nat)
    ensures ToBits(0, w) == Zeros(w)
  {
    if w > 0 {
      ToBitsOfZero(w - 1);
    }
  }

  /** A word holding a `w`-bit number starts with the `w`-bit form of it. */
  lemma {:induction false} ToBitsPrefix(n: nat, w: nat, big: nat)
    requires w <= big
    ensures ToBits(n, big)[..w] == ToBits(n, w)
  {
    ToBitsSplit(n, w, big - w);
  }

  /** A number below 2^w survives truncation to `w` bits. */
  lemma {:induction false} ValueFits(g: BitString, w: nat)
    requires Nat(g) < Pow2(w)
    ensures Nat(Resize(g, w)) == Nat(g)
  {
    ToBitsOfNat(g);
    ToBitsFits(Nat(g), |g|, w);
    NatOfResize(g, w);
  }

  lemma {:induction false} DivisionOf(n: nat, d: nat, q: nat, r: nat)
    requires r < d && n == r + d * q
    ensures n / d == q && n % d == r
  {
    QuotientUnique(n, d, q, r);
  }

  lemma {:induction false} NatSplit(b: BitString, k: nat)
    requires k <= |b|
    ensures Nat(b) == Nat(b[..k]) + Pow2(k) * Nat(b[k..])
    ensures Nat(b[..k]) < Pow2(k)
  {
    assert b == b[..k] + b[k..];
    NatAppend(b[..k], b[k..]);
    NatBound(b[..k]);
  }

  lemma {:induction false} SplitIsDivision(b: BitString, k: nat)
    requires k <= |b|
    ensures Nat(b[k..]) == Nat(b) / Pow2(k)
    ensures Nat(b[..k]) == Nat(b) % Pow2(k)
  {
    NatSplit(b, k);
    DivisionOf(Nat(b), Pow2(k), Nat(b[k..]), Nat(b[..k]));
  }

  lemma {:induction false} ShiftRightIsDivision(b: BitString, k: nat)
    requires k <= |b|
    ensures Nat(Shr(b, k)) == Nat(b[k..]) == Nat(b) / Pow2(k)
    ensures Nat(b[..k]) == Nat(b) % Pow2(k)
  {
    var s := Shr(b, k);
    assert s[..|b| - k] == b[k..];
    NatOfPrefix(s, |b| - k);
    SplitIsDivision(b, k);
  }

  // ----- Bit widths -----

  /** `bit_width` of the encoders: the number of bits needed to hold `maxN`. */
  function BitWidth(maxN: nat): (w: nat)
    ensures maxN < Pow2(w)
    ensures w > 0 ==> Pow2(w - 1) <= maxN
  {
    if maxN == 0 then 0 else 1 + BitWidth(maxN / 2)
  }

  lemma {:induction false} BitWidthAtMost(maxN: nat, k: nat)
    requires maxN < Pow2(k)
    ensures BitWidth(maxN) <= k
  {
    var w := BitWidth(maxN);
    if w > k {
      Pow2Monotonic(k, w - 1);
      assert false;
    }
  }

  // ----- Fixed-width packing -----

  /** The bits that `n` values of `w` bits take: the product, one value at a time. */
  function Span(n: nat, w: nat): nat {
    if n == 0 then 0 else Span(n - 1, w) + w
  }

  lemma {:induction false} SpanIsProduct(n: nat, w: nat)
    ensures Span(n, w) == n * w == w * n
  {
    if n > 0 {
      SpanIsProduct(n - 1, w);
    }
  }

  lemma {:induction false} SpanAdd(a: nat, b: nat, w: nat)
    ensures Span(a + b, w) == Span(a, w) + Span(b, w)
  {
    if b > 0 {
      SpanAdd(a, b - 1, w);
    }
  }

  lemma {:induction false} SpanMonotonic(a: nat, b: nat, w: nat)
    requires a <= b
    ensures Span(a, w) <= Span(b, w)
  {
    SpanAdd(a, b - a, w);
  }

  lemma {:induction false} SpanWider(n: nat, v: nat, w: nat)
    ensures Span(n, v + w) == Span(n, v) + Span(n, w)
  {
    if n > 0 {
      SpanWider(n - 1, v, w);
    }
  }

  lemma {:induction false} SpanAtMost(n: nat, v: nat, w: nat)
    requires v <= w
    ensures Span(n, v) <= Span(n, w) == n * w
  {
    SpanWider(n, v, w - v);
    SpanIsProduct(n, w);
  }

  /** Eight values fill whole bytes. */
  lemma {:induction false} SpanOfGroups(groups: nat, w: nat)
    ensures Span(8 * groups, w) == 8 * Span(groups, w)
  {
    if groups > 0 {
      SpanOfGroups(groups - 1, w);
      SpanAdd(8 * (groups - 1), 8, w);
      SpanOfEight(w);
    }
  }

  lemma {:induction false} SpanOfEight(w: nat)
    ensures Span(8, w) == 8 * w
  {
    SpanIsProduct(8, w);
  }

  lemma {:induction false} SpanOfOnes(n: nat)
    ensures Span(n, 1) == n && Span(n, 0) == 0
  {
    if n > 0 {
      SpanOfOnes(n - 1);
    }
  }

  /** The first `n` values of width `w` packed at the front of `b`. */
  function Unpack(b: BitString, w: nat, n: nat): (vs: seq<nat>)
    requires Span(n, w) <= |b|
    ensures |vs| == n
  {
    if n == 0 then [] else
      Unpack(b, w, n - 1) + [Nat(b[Span(n - 1, w)..Span(n, w)])]
  }

  /** The values packed `w` bits each, back to back. */
  function Pack(vs: seq<nat>, w: nat): (b: BitString)
    ensures |b| == Span(|vs|, w)
  {
    if vs == [] then [] else Pack(vs[..|vs| - 1], w) + ToBits(vs[|vs| - 1], w)
  }

  lemma {:induction false} PackOne(vs: seq<nat>, v: nat, w: nat)
    ensures Pack(vs + [v], w) == Pack(vs, w) + ToBits(v, w)
  {
    assert (vs + [v])[..|vs|] == vs;
  }

  predicate AllBelow(vs: seq<nat>, bound: nat) {
    forall i :: 0 <= i < |vs| ==> vs[i] < bound
  }

  /** Unpacking packed values returns them, whatever follows. */
  lemma {:induction false} UnpackOfPack(vs: seq<nat>, w: nat, rest: BitString)
    requires AllBelow(vs, Pow2(w))
    ensures Unpack(Pack(vs, w) + rest, w, |vs|) == vs
  {
    hide Nat, ToBits, Pow2;
    if vs != [] {
      var n := |vs|;
      var front, v := vs[..n - 1], vs[n - 1];
      var packed, last := Pack(front, w), ToBits(v, w);
      UnpackOfPack(front, w, last + rest);
      Associate(packed, last, rest);
      Parts(packed, last + rest);
      Parts(last, rest);
      var b := Pack(vs, w) + rest;
      TakeOfDrop(b, |packed|, w);
      NatOfToBits(v, w);
      FrontAndLast(vs);
    }
  }

  lemma {:induction false} FrontAndLast<T>(s: seq<T>)
    requires s != []
    ensures s == s[..|s| - 1] + [s[|s| - 1]]
  {
  }

  /** Two batches are one batch of the sum. */
  lemma {:induction false} UnpackSplit(b: BitString, w: nat, m: nat, n: nat)
    requires Span(m + n, w) <= |b|
    ensures Span(m, w) <= |b| && Span(n, w) <= |b[Span(m, w)..]|
    ensures Unpack(b, w, m + n) == Unpack(b, w, m) + Unpack(b[Span(m, w)..], w, n)
  {
    hide Nat;
    SpanAdd(m, n, w);
    if n == 0 {
    } else {
      SpanAdd(m, n - 1, w);
      UnpackSplit(b, w, m, n - 1);
      SliceOfDrop(b, Span(m, w), Span(n - 1, w), Span(n, w));
      Associate(Unpack(b, w, m), Unpack(b[Span(m, w)..], w, n - 1),
                [Nat(b[Span(m + n - 1, w)..Span(m + n, w)])]);
    }
  }

  /** Each unpacked value is the number in its own bits. */
  lemma {:induction false} UnpackAt(b: BitString, w: nat, n: nat, k: nat)
    requires k < n && Span(n, w) <= |b|
    ensures Span(k, w) + w <= |b|
    ensures Unpack(b, w, n)[k] == Nat(b[Span(k, w)..Span(k, w) + w])
  {
    if k < n - 1 {
      UnpackAt(b, w, n - 1, k);
    }
  }
}
