/**
Dictionary encoding: the builder that numbers values in the order of their first occurrence,
the encoder that writes the numbers of a page, the fallback to plain, and the decoder.
 */
module Dictionaries {
  import opened Options
  import opened Bits
  import opened BitReading
  import opened Records
  import opened Rle
  import opened RleDecoding
  import opened RleEncoding
  import opened RleBuilding
  import opened PlainCoding

  // ----- Keys -----

  predicate Floating(kind: Kind) {
    kind.Float? || kind.Double?
  }

  /** The bits below the exponent. */
  function MantissaBits(kind: Kind): nat
    requires Floating(kind)
  {
    if kind.Float? then 23 else 52
  }

  /** Zero of either sign; the sign is the last bit. */
  predicate IsZero(kind: Kind, v: Atom) {
    Floating(kind) && |v| == 8 * kind.Bytes() && v[..|v| - 1] == Zeros(|v| - 1)
  }

  /** All exponent bits are set, and some bit of the mantissa. */
  predicate IsNaN(kind: Kind, v: Atom) {
    && Floating(kind) && |v| == 8 * kind.Bytes()
    && (forall i :: MantissaBits(kind) <= i < |v| - 1 ==> v[i])
    && (exists i :: 0 <= i < MantissaBits(kind) && v[i])
  }

  /** In numbers: zeros are 0 up to their sign, and what is not a number has the largest exponent and a
      mantissa other than 0. */
  lemma {:induction false} SpecialFloats(v: Atom)
    ensures |v| == 32 ==>
      && (IsZero(Float, v) <==> Nat(v[..31]) == 0)
      && (IsNaN(Float, v) <==> Nat(v[23..31]) == 255 && Nat(v[..23]) != 0)
    ensures |v| == 64 ==>
      && (IsZero(Double, v) <==> Nat(v[..63]) == 0)
      && (IsNaN(Double, v) <==> Nat(v[52..63]) == 2047 && Nat(v[..52]) != 0)
  {
    hide Nat, Pow2;
    Pow2Values();
    LargestExponent();
    if |v| == 32 {
      NoneOrAllSet(v[..31]);
      NoneOrAllSet(v[..23]);
      NoneOrAllSet(v[23..31]);
      assert forall i :: 23 <= i < 31 ==> v[i] == v[23..31][i - 23];
    } else if |v| == 64 {
      NoneOrAllSet(v[..63]);
      NoneOrAllSet(v[..52]);
      NoneOrAllSet(v[52..63]);
      assert forall i :: 52 <= i < 63 ==> v[i] == v[52..63][i - 52];
    }
  }

  lemma {:induction false} LargestExponent()
    ensures Pow2(11) == 2048
  {
    Pow2Values();
    assert Pow2(9) == 512 && Pow2(10) == 1024;
  }

  lemma {:induction false} NoneOrAllSet(b: BitString)
    ensures Nat(b) == 0 <==> forall i :: 0 <= i < |b| ==> !b[i]
    ensures Nat(b) == 0 <==> b == Zeros(|b|)
    ensures Nat(b) == Pow2(|b|) - 1 <==> forall i :: 0 <= i < |b| ==> b[i]
  {
    if b != [] {
      NoneOrAllSet(b[1..]);
      NatBound(b[1..]);
    }
  }

  /** The equality of the hash map's keys: zeros of either sign are the same number, and what is
      not a number equals nothing, not even itself. */
  predicate SameKey(kind: Kind, a: Atom, b: Atom) {
    !IsNaN(kind, a) && (a == b || (IsZero(kind, a) && IsZero(kind, b)))
  }

  // ----- The dictionary -----

  /** The place of a value in the dictionary, or that behind the last one. */
  function Place(kind: Kind, keys: seq<Atom>, v: Atom): (i: nat)
    ensures i <= |keys| && (forall j :: 0 <= j < i ==> !SameKey(kind, keys[j], v))
    ensures i < |keys| ==> SameKey(kind, keys[i], v)
  {
    if keys == [] then 0 else if SameKey(kind, keys[0], v) then 0 else 1 + Place(kind, keys[1..], v)
  }

  /** A value without a place is a new key at the end. */
  function NextKeys(kind: Kind, keys: seq<Atom>, v: Atom): (next: seq<Atom>)
    ensures keys <= next && Place(kind, keys, v) < |next| <= |keys| + 1
  {
    if Place(kind, keys, v) < |keys| then keys else keys + [v]
  }

  /** What a reader gets for a value that is put with the dictionary `keys`: the key at its place,
      as the dictionary page gives it back. */
  function DictRead(kind: Kind, keys: seq<Atom>, v: Atom): Atom {
    PlainRead(kind, NextKeys(kind, keys, v))[Place(kind, keys, v)]
  }

  /** The values of `data` in the order of their first occurrence, after those of `keys`. */
  function FirstOccurrences(kind: Kind, keys: seq<Atom>, data: seq<Atom>): seq<Atom> {
    if data == [] then keys else NextKeys(kind, FirstOccurrences(kind, keys, data[..|data| - 1]), data[|data| - 1])
  }

  /** What a reader gets for all of them. */
  function DictReads(kind: Kind, keys: seq<Atom>, data: seq<Atom>): (r: seq<Atom>)
    ensures |r| == |data|
  {
    if data == [] then []
    else
      var front, v := data[..|data| - 1], data[|data| - 1];
      DictReads(kind, keys, front) + [DictRead(kind, FirstOccurrences(kind, keys, front), v)]
  }

  /** The places of all of them. */
  function Places(kind: Kind, keys: seq<Atom>, data: seq<Atom>): (r: seq<nat>)
    ensures |r| == |data|
  {
    if data == [] then []
    else
      var front, v := data[..|data| - 1], data[|data| - 1];
      Places(kind, keys, front) + [Place(kind, FirstOccurrences(kind, keys, front), v)]
  }

  predicate Distinct(kind: Kind, keys: seq<Atom>) {
    forall i, j :: 0 <= i < j < |keys| ==> !SameKey(kind, keys[i], keys[j])
  }

  /** Each index tells the value at its place. */
  predicate Tells(keys: seq<Atom>, indices: seq<nat>, data: seq<Atom>) {
    |indices| == |data| && forall i :: 0 <= i < |data| ==> indices[i] < |keys| && keys[indices[i]] == data[i]
  }

  /** The dictionary only grows, so what was told before is told still. */
  lemma {:induction false} TellsLater(keys: seq<Atom>, later: seq<Atom>, indices: seq<nat>, data: seq<Atom>)
    requires Tells(keys, indices, data) && keys <= later
    ensures Tells(later, indices, data)
  {
    forall i | 0 <= i < |data| ensures later[indices[i]] == data[i] {
      assert later[..|keys|][indices[i]] == keys[indices[i]];
    }
  }

  /** The dictionary only grows at its end, no key equals a later one, its keys are values put, and
      every value put has a key: itself, or a zero of either sign if it is one. */
  lemma {:induction false} FirstOccurrencesGrow(kind: Kind, keys: seq<Atom>, data: seq<Atom>)
    ensures var all := FirstOccurrences(kind, keys, data);
      && keys <= all && |all| <= |keys| + |data|
      && (Distinct(kind, keys) ==> Distinct(kind, all))
      && (forall k :: k in all ==> k in keys || k in data)
      && (forall v :: v in data ==> v in all || (IsZero(kind, v) && exists k :: k in all && IsZero(kind, k)))
  {
    hide SameKey, IsZero;
    if data != [] {
      var front, v := data[..|data| - 1], data[|data| - 1];
      FirstOccurrencesGrow(kind, keys, front);
      FrontAndLast(data);
      KeyOf(kind, FirstOccurrences(kind, keys, front), v);
    }
  }

  /** The key that a value gets. */
  lemma {:induction false} KeyOf(kind: Kind, keys: seq<Atom>, v: Atom)
    ensures var all, i := NextKeys(kind, keys, v), Place(kind, keys, v);
      all[i] == v || (IsZero(kind, v) && IsZero(kind, all[i]))
  {
  }

  /** A dictionary gives a floating-point value back unless it is a zero, and the first one was of
      the other sign. */
  lemma {:induction false} FloatReadBackIff(kind: Kind, keys: seq<Atom>, v: Atom)
    requires Floating(kind) && Distinct(kind, keys)
    ensures DictRead(kind, keys, v) == v <==> (IsZero(kind, v) ==> forall k :: k in keys && IsZero(kind, k) ==> k == v)
  {
    var i := Place(kind, keys, v);
    if IsZero(kind, v) {
      ZeroIsNumber(kind, v);
      forall j | 0 <= j < |keys| && IsZero(kind, keys[j]) ensures j == i {
        ZeroIsNumber(kind, keys[j]);
        assert SameKey(kind, keys[j], v);
        if i < j {
          assert SameKey(kind, keys[i], keys[j]);
        }
      }
    } else {
      KeyOf(kind, keys, v);
    }
  }

  lemma {:induction false} ZeroIsNumber(kind: Kind, v: Atom)
    requires IsZero(kind, v)
    ensures !IsNaN(kind, v)
  {
    var m := MantissaBits(kind);
    assert !v[..|v| - 1][m];
  }

  /** Integers and byte arrays are always given back. */
  lemma {:induction false} ExactReadBack(kind: Kind, keys: seq<Atom>, v: Atom)
    requires !Floating(kind) && kind != Boolean
    ensures DictRead(kind, keys, v) == v
  {
    KeyOf(kind, keys, v);
  }

  /** A boolean is given back, after others that are, if it is false or the first key is true. */
  lemma {:induction false} BooleanReadBackIff(keys: seq<Atom>, v: Atom)
    requires TrueFirst(keys) && Distinct(Boolean, keys)
    ensures DictRead(Boolean, keys, v) == v <==> v == FALSE || (v == TRUE && (keys == [] || keys[0] == TRUE))
  {
    hide PlainRead;
    var i := Place(Boolean, keys, v);
    if i < |keys| {
      BooleansReadBackIff(keys);
      assert keys[i] == v;
      assert v == TRUE ==> i == 0;
      assert v == FALSE || v == TRUE;
    } else {
      OneMoreBoolean(keys, v);
      if v == TRUE && keys != [] {
        assert keys[0] != TRUE;
      }
    }
  }

  /** The sign of the second zero is lost. */
  lemma {:induction false} NegativeZeroIsLost()
    ensures var plus, minus := Zeros(32), Zeros(31) + [true];
      DictReads(Float, [], [plus, minus]) == [plus, plus]
  {
    var plus, minus := Zeros(32), Zeros(31) + [true];
    assert [plus, minus][..1] == [plus] && [plus][..0] == [];
    assert IsZero(Float, plus) && IsZero(Float, minus);
    ZeroIsNumber(Float, plus);
    assert FirstOccurrences(Float, [], [plus]) == [plus];
    assert SameKey(Float, plus, minus);
  }

  /** So is a true value after a false one, but not the other way round. */
  lemma {:induction false} TrueAfterFalseIsLost()
    ensures DictReads(Boolean, [], [FALSE, TRUE]) == [FALSE, FALSE]
    ensures DictReads(Boolean, [], [TRUE, FALSE]) == [TRUE, FALSE]
  {
    hide PlainRead, SameKey;
    TwoBooleans(FALSE, TRUE);
    TwoBooleans(TRUE, FALSE);
  }

  lemma {:induction false} TwoBooleans(a: Atom, b: Atom)
    requires (a == FALSE && b == TRUE) || (a == TRUE && b == FALSE)
    ensures DictReads(Boolean, [], [a, b]) == [a, FALSE]
  {
    hide SameKey, PlainRead, DictReads, FirstOccurrences;
    Differ(a, b);
    BitsOfTwo(a, b);
    DictReadsOne(Boolean, [], [], a);
    DictReadsOne(Boolean, [], [a], b);
    assert [] + [a] == [a] && [a] + [b] == [a, b];
  }

  lemma {:induction false} Differ(a: Atom, b: Atom)
    requires (a == FALSE && b == TRUE) || (a == TRUE && b == FALSE)
    ensures !SameKey(Boolean, a, b)
  {
    assert a[0] != b[0];
  }

  lemma {:induction false} DictReadsOne(kind: Kind, keys: seq<Atom>, data: seq<Atom>, v: Atom)
    ensures DictReads(kind, keys, data + [v]) == DictReads(kind, keys, data) + [DictRead(kind, FirstOccurrences(kind, keys, data), v)]
    ensures FirstOccurrences(kind, keys, data + [v]) == NextKeys(kind, FirstOccurrences(kind, keys, data), v)
    ensures Places(kind, keys, data + [v]) == Places(kind, keys, data) + [Place(kind, FirstOccurrences(kind, keys, data), v)]
    ensures DictReads(kind, keys, []) == [] && FirstOccurrences(kind, keys, []) == keys && Places(kind, keys, []) == []
  {
    assert (data + [v])[..|data|] == data;
  }

  lemma {:induction false} BitsOfTwo(a: Atom, b: Atom)
    requires (a == FALSE && b == TRUE) || (a == TRUE && b == FALSE)
    ensures PlainRead(Boolean, [a])[0] == a && PlainRead(Boolean, [a] + [b])[1] == FALSE
  {
    var both := [a] + [b];
    assert both[0] == a && BitOf([a], 0) == a[0] && BitOf(both, 1) == a[1] == false;
    assert a == BooleanAtom(a[0]);
  }

  lemma {:induction false} DictReadSize(kind: Kind, keys: seq<Atom>, v: Atom)
    requires Storable(kind, v)
    ensures |DictRead(kind, keys, v)| == |v|
  {
    KeyOf(kind, keys, v);
  }

  class DictBuilder {
    var accumulator: seq<(Atom, nat)>  // the entries of the hash map, in the order they were made
    var dict: BitString                // the plain encoding of the keys
    const kind: Kind
    ghost var keys: seq<Atom>

    ghost predicate Valid()
      reads this
    {
      && |accumulator| == |keys| && AllStorable(kind, keys) && dict == PlainCodes(kind, keys)
      && forall i :: 0 <= i < |keys| ==> accumulator[i] == (keys[i], i)
    }

    constructor (kind: Kind)
      ensures Valid() && keys == [] && dict == [] && this.kind == kind
    {
      accumulator, dict, keys := [], [], [];
      this.kind := kind;
    }

    /** The number of a key: its place in the dictionary, where a new key is appended. */
    method Put(key: Atom) returns (index: nat)
      requires Valid() && Storable(kind, key)
      modifies this
      ensures Valid() && index == Place(kind, old(keys), key) && keys == NextKeys(kind, old(keys), key)
      ensures |dict| <= |old(dict)| + |Code(kind, key)|
    {
      hide PlainCodes, Storable, SameKey;
      var i := Find(key);
      if i == |accumulator| {
        accumulator := accumulator + [(key, |accumulator|)];
        PlainAppend(kind, keys, [key]);
        OneCode(kind, key);
        dict := dict + Code(kind, key);
        keys := keys + [key];
      }
      index := accumulator[i].1;
    }

    /** The entry whose key equals the given one. */
    method Find(key: Atom) returns (i: nat)
      requires Valid()
      ensures i == Place(kind, keys, key)
    {
      hide PlainCodes, Storable, SameKey;
      i := 0;
      while i < |accumulator| && !SameKey(kind, accumulator[i].0, key)
        invariant i <= |accumulator| && forall j :: 0 <= j < i ==> !SameKey(kind, keys[j], key)
      {
        i := i + 1;
      }
    }

    function Cardinality(): nat
      reads this
    {
      |accumulator|
    }
  }

  lemma {:induction false} CardinalityIsKeys(b: DictBuilder)
    requires b.Valid()
    ensures b.Cardinality() == |b.keys|
  {
  }

  // ----- Encoder -----

  /** The bytes of a page denote `data` with the dictionary `keys`: a bit width, and hybrid
      encoded indices of that width, with padding perhaps. */
  ghost predicate IndexPage(bits: BitString, keys: seq<Atom>, data: seq<Atom>) {
    && 8 <= |bits| && Nat(bits[..8]) <= 32
    && var indices := Decode(bits[8..], Nat(bits[..8]));
    && |data| <= |indices| && Tells(keys, indices[..|data|], data)
  }

  lemma {:induction false} IndexPageLater(bits: BitString, keys: seq<Atom>, later: seq<Atom>, data: seq<Atom>)
    requires IndexPage(bits, keys, data) && keys <= later
    ensures IndexPage(bits, later, data)
  {
    hide Decode, Tells, Nat;
    TellsLater(keys, later, Decode(bits[8..], Nat(bits[..8]))[..|data|], data);
  }

  class DictEncoder {
    const values: DictBuilder
    var indices: seq<nat>
    ghost var told: seq<Atom>  // what a reader gets for the values put since the last flush
    ghost var all: seq<Atom>   // the values put ever

    ghost predicate Valid()
      reads this, values
    {
      && values.Valid() && Tells(PlainRead(values.kind, values.keys), indices, told)
      && values.keys == FirstOccurrences(values.kind, [], all)
    }

    constructor (kind: Kind)
      ensures Valid() && fresh(values) && values.kind == kind && told == [] && all == [] && values.keys == [] && values.dict == []
    {
      values := new DictBuilder(kind);
      indices, told, all := [], [], [];
    }

    method PutBatch(data: seq<Atom>)
      requires Valid() && AllStorable(values.kind, data)
      modifies this, values
      ensures Valid() && all == old(all) + data
      ensures indices == old(indices) + Places(values.kind, old(values.keys), data)
      ensures told == old(told) + DictReads(values.kind, old(values.keys), data)
      ensures values.keys == FirstOccurrences(values.kind, old(values.keys), data)
      ensures |values.dict| <= |old(values.dict)| + |PlainCodes(values.kind, data)|
    {
      hide Tells, Place, Places, NextKeys, DictBuilder.Valid, Storable, PlainCodes, Code, DictRead, DictReads, FirstOccurrences,
        PlainRead;
      NoCodes(values.kind, data);
      DictReadsOne(values.kind, values.keys, [], []);
      for i := 0 to |data|
        invariant Valid() && all == old(all) + data[..i]
        invariant indices == old(indices) + Places(values.kind, old(values.keys), data[..i])
        invariant told == old(told) + DictReads(values.kind, old(values.keys), data[..i])
        invariant values.keys == FirstOccurrences(values.kind, old(values.keys), data[..i])
        invariant |values.dict| <= |old(values.dict)| + |PlainCodes(values.kind, data[..i])|
      {
        assert data[..i + 1] == data[..i] + [data[i]];
        DictReadsOne(values.kind, old(values.keys), data[..i], data[i]);
        PlainAppend(values.kind, data[..i], [data[i]]);
        OneCode(values.kind, data[i]);
        PutOne(data[i]);
        Associate(old(all), data[..i], [data[i]]);
        Associate(old(indices), Places(values.kind, old(values.keys), data[..i]),
          [Place(values.kind, FirstOccurrences(values.kind, old(values.keys), data[..i]), data[i])]);
        Associate(old(told), DictReads(values.kind, old(values.keys), data[..i]),
          [DictRead(values.kind, FirstOccurrences(values.kind, old(values.keys), data[..i]), data[i])]);
      }
      assert data[..|data|] == data;
    }

    method PutOne(v: Atom)
      requires Valid() && Storable(values.kind, v)
      modifies this, values
      ensures Valid() && all == old(all) + [v]
      ensures indices == old(indices) + [Place(values.kind, old(values.keys), v)]
      ensures told == old(told) + [DictRead(values.kind, old(values.keys), v)]
      ensures values.keys == NextKeys(values.kind, old(values.keys), v)
      ensures |values.dict| <= |old(values.dict)| + |Code(values.kind, v)|
    {
      hide Code, Storable, DictBuilder.Valid, PlainRead, SameKey;
      ghost var keys := values.keys;
      var index := values.Put(v);
      PlainReadGrows(values.kind, keys, values.keys);
      TellsLater(PlainRead(values.kind, keys), PlainRead(values.kind, values.keys), indices, told);
      indices := indices + [index];
      told := told + [DictRead(values.kind, keys, v)];
      assert (all + [v])[..|all|] == all;
      all := all + [v];
    }

    function IndexBitWidth(): nat
      reads this, values
    {
      BitWidth(values.Cardinality())
    }

    function MaxEncodedSize(): nat
      reads this, values
    {
      1 + MinBufferSize(IndexBitWidth()) + MaxBufferSize(IndexBitWidth(), |indices|)
    }

    /** Write the page of the pending values into `sink` and start a new one. The results of
        putting the indices are ignored, since with so much room none is refused. */
    method Flush(sink: array<bool>, base: nat) returns (size: nat)
      requires Valid() && base + 8 * MaxEncodedSize() <= sink.Length
      requires RunsFit(indices) && values.Cardinality() < 0x1_0000_0000
      modifies `indices, `told, sink
      ensures Valid() && indices == [] && told == [] && size <= old(MaxEncodedSize())
      ensures sink[..base] == old(sink[..base])
      ensures IndexPage(sink[base..base + 8 * size], PlainRead(values.kind, values.keys), old(told))
      ensures sink[base..base + 8 * size] == IndexBytes(old(indices), |values.keys|)
    {
      hide MinBufferSize, MaxBufferSize, IndexPage, Tells, FirstOccurrences, DictBuilder.Valid, Decode, Serialize,
        Expand, Pow2, BitWidth, Hybrid,
        PlainRead, RunsFit, RleEncoder.Valid;
      CardinalityIsKeys(values);
      var w, len := IndexBitWidth(), MaxEncodedSize();
      ghost var keys := PlainRead(values.kind, values.keys);
      IndicesFit(values, indices, told);
      size := WriteIndices(sink, base, w, len, indices);
      PageOf(sink[base..base + 8 * size], w, keys, indices, told);
      indices, told := [], [];
      NothingTold(keys);
    }
  }

  lemma {:induction false} NoCodes(kind: Kind, data: seq<Atom>)
    ensures PlainCodes(kind, data[..0]) == []
  {
  }

  /** The page of indices into a dictionary of so many keys: their width in a byte, the smallest that
      holds the number of keys, and their runs. */
  function IndexBytes(indices: seq<nat>, keys: nat): BitString {
    ToBits(BitWidth(keys), 8) + Serialize(Hybrid(indices, []), BitWidth(keys))
  }

  /** The bits that a page of `n` indices may take. */
  function IndexRoom(n: nat): nat {
    8 * (2083 + 5 * n)
  }

  lemma {:induction false} IndexRoomIsEnough(w: nat, n: nat)
    requires w <= 32
    ensures 8 * (1 + MinBufferSize(w) + MaxBufferSize(w, n)) <= IndexRoom(n)
  {
    hide Span;
    var g := CeilDiv8(n);
    SpanIsProduct(g, w);
    SpanAtMost(g, w, 32);
    SpanIsProduct(g, 1 + CeilDiv8(w));
    SpanAtMost(g, 1 + CeilDiv8(w), 5);
  }

  /** A byte with the bit width, and the hybrid encoded indices. */
  method WriteIndices(sink: array<bool>, base: nat, w: nat, len: nat, indices: seq<nat>) returns (size: nat)
    requires w <= 32 && AllBelow(indices, Pow2(w)) && RunsFit(indices)
    requires len == 1 + MinBufferSize(w) + MaxBufferSize(w, |indices|) && base + 8 * len <= sink.Length
    modifies sink
    ensures 1 <= size <= len && sink[..base] == old(sink[..base])
    ensures sink[base..base + 8 * size][..8] == ToBits(w, 8)
    ensures indices <= Decode(sink[base..base + 8 * size][8..], w)
    ensures sink[base..base + 8 * size] == ToBits(w, 8) + Serialize(Hybrid(indices, []), w)
  {
    hide MinBufferSize, MaxBufferSize, Decode, Serialize, Hybrid, Pow2, ToBits, RunsFit, RleEncoder.Valid;
    PutByte(sink, base, w);
    ghost var first := sink[..base + 8];
    var encoder := new RleEncoder(sink, base + 8, len - 1, w);
    PutIndices(encoder, indices);
    var n := FlushIndices(encoder, indices);
    size := 1 + n;
    assert sink[..base + 8] == first && sink[..base] == first[..base];
    Window(sink[..], base, 8, 8 * size);
    JoinSlices(sink[..], base, base + 8, base + 8 * size);
  }

  lemma {:induction false} Window(b: BitString, base: nat, n: nat, m: nat)
    requires n <= m && base + m <= |b|
    ensures b[base..base + m][..n] == b[base..base + n] && b[base..base + m][n..] == b[base + n..base + m]
  {
  }

  lemma {:induction false} NothingTold(keys: seq<Atom>)
    ensures Tells(keys, [], [])
  {
  }

  lemma {:induction false} IndicesFit(b: DictBuilder, indices: seq<nat>, data: seq<Atom>)
    requires b.Valid() && Tells(PlainRead(b.kind, b.keys), indices, data) && b.Cardinality() < 0x1_0000_0000
    ensures BitWidth(b.Cardinality()) <= 32 && AllBelow(indices, Pow2(BitWidth(b.Cardinality())))
  {
    hide Pow2, BitWidth;
    Pow2Values();
    BitWidthAtMost(b.Cardinality(), 32);
  }

  method PutByte(sink: array<bool>, base: nat, value: nat)
    requires base + 8 <= sink.Length
    modifies sink
    ensures sink[..base] == old(sink[..base]) && sink[base..base + 8] == ToBits(value, 8)
  {
    hide ToBits;
    forall i | 0 <= i < 8 {
      sink[base + i] := ToBits(value, 8)[i];
    }
  }

  method PutIndices(e: RleEncoder, indices: seq<nat>)
    requires e.Valid() && e.input == [] && AllBelow(indices, Pow2(e.bit_width)) && RunsFit(indices)
    requires e.bit_writer.max_bytes >= MinBufferSize(e.bit_width) + MaxBufferSize(e.bit_width, |indices|)
    requires e.bit_writer.base <= e.bit_writer.buffer.Length
    modifies e, e.bit_writer, e.bit_writer.buffer
    ensures e.Valid() && e.input == indices
    ensures e.bit_writer.buffer[..e.bit_writer.base] == old(e.bit_writer.buffer[..e.bit_writer.base])
  {
    hide MinBufferSize, MaxBufferSize, Pow2, Trailing, RleEncoder.Valid;
    for i := 0 to |indices|
      invariant e.Valid() && e.input == indices[..i]
      invariant e.bit_writer.buffer[..e.bit_writer.base] == old(e.bit_writer.buffer[..e.bit_writer.base])
    {
      NeverFull(e, |indices|);
      assert Trailing(indices[..i], indices[i]) < MAX_REPEAT;
      TrailingCanPut(e, indices[i]);
      var ok := e.Put(indices[i]);
      assert ok;
      assert indices[..i + 1] == indices[..i] + [indices[i]];
    }
    assert indices[..|indices|] == indices;
  }

  method FlushIndices(e: RleEncoder, ghost indices: seq<nat>) returns (n: nat)
    requires e.Valid() && e.input == indices && RunsFit(indices)
    modifies e, e.bit_writer, e.bit_writer.buffer
    ensures 8 * n <= 8 * e.bit_writer.max_bytes
    ensures e.bit_writer.buffer[..e.bit_writer.base] == old(e.bit_writer.buffer[..e.bit_writer.base])
    ensures indices <= Decode(e.bit_writer.buffer[e.bit_writer.base..e.bit_writer.base + 8 * n], e.bit_width)
    ensures e.bit_writer.buffer[e.bit_writer.base..e.bit_writer.base + 8 * n] == Serialize(Hybrid(indices, []), e.bit_width)
  {
    hide Serialize, Expand, Hybrid, Decode, Budget, AllValid, Repeat, RunsFit, LongRun, RleEncoder.Valid;
    RunsFitIsNotLong(indices);
    n := e.Flush();
  }

  lemma {:induction false} PageOf(page: BitString, w: nat, keys: seq<Atom>, indices: seq<nat>, data: seq<Atom>)
    requires w <= 32 && 8 <= |page| && page[..8] == ToBits(w, 8)
    requires indices <= Decode(page[8..], w) && Tells(keys, indices, data)
    ensures IndexPage(page, keys, data)
  {
    hide Decode, Tells, Nat, ToBits;
    Pow2Values();
    NatOfToBits(w, 8);
    var read := Decode(page[8..], w);
    assert read[..|indices|] == indices;
    SameLength(keys, indices, data);
  }

  lemma {:induction false} SameLength(keys: seq<Atom>, indices: seq<nat>, data: seq<Atom>)
    requires Tells(keys, indices, data)
    ensures |indices| == |data|
  {
  }

  // ----- Decoder -----

  /** Indices that name a value, and indices that are refused. The check lets one more index
      pass than there are values. */
  predicate Refused(keys: seq<Atom>, indices: seq<nat>) {
    exists i :: 0 <= i < |indices| && indices[i] > |keys|
  }

  predicate PastTheEnd(keys: seq<Atom>, indices: seq<nat>) {
    exists i :: 0 <= i < |indices| && indices[i] == |keys|
  }

  function LookUp(keys: seq<Atom>, indices: seq<nat>): (values: seq<Atom>)
    requires forall i :: 0 <= i < |indices| ==> indices[i] < |keys|
    ensures |values| == |indices|
  {
    seq(|indices|, i requires 0 <= i < |indices| => keys[indices[i]])
  }

  const BUFFER_SIZE := 1024

  /** How many indices are looked up when there are fewer than asked for, `whole` of them before a
      literal run that is cut off: those, and every buffer that gets full. */
  function LookedUp(all: nat, whole: nat): nat {
    if whole >= 1024 * (all / 1024) then whole else 1024 * (all / 1024)
  }

  lemma {:induction false} LastBuffer(all: nat, whole: nat, q: nat)
    requires whole <= all
    ensures LookedUp(all, whole) <= all && (BUFFER_SIZE * q <= all ==> BUFFER_SIZE * q <= LookedUp(all, whole))
    ensures BUFFER_SIZE * q <= all < BUFFER_SIZE * q + BUFFER_SIZE ==>
      LookedUp(all, whole) == BUFFER_SIZE * q + Less(whole, BUFFER_SIZE * q)
  {
  }

  class DictDecoder {
    const dict: seq<Atom>
    const rle_decoder: RleDecoder

    ghost predicate Valid()
      reads this, rle_decoder, rle_decoder.bit_reader
    {
      rle_decoder.Valid() && rle_decoder.bit_width <= 32
    }

    constructor (dict: seq<Atom>, rle_decoder: RleDecoder)
      requires rle_decoder.Valid() && rle_decoder.bit_width <= 32
      ensures Valid() && this.dict == dict && this.rle_decoder == rle_decoder
    {
      this.dict, this.rle_decoder := dict, rle_decoder;
    }

    /** The indices of the next `k` places, or as many as there are. */
    ghost function Next(k: nat): (indices: seq<nat>)
      requires Valid()
      reads this, rle_decoder, rle_decoder.bit_reader
      ensures |indices| <= k
    {
      rle_decoder.Pending()[..Min(k, |rle_decoder.Pending()|)]
    }

    /** The next `n` values, by way of a buffer for the indices. */
    method ReadBatch(n: nat) returns (ok: bool, out: seq<Atom>)
      requires Valid() && !PastTheEnd(dict, Next(n))
      modifies rle_decoder, rle_decoder.bit_reader
      ensures var all := old(rle_decoder.Pending());
        if n <= |all| then
          && ok == !Refused(dict, all[..n])
          && (ok ==> Valid() && rle_decoder.Pending() == all[n..] && Tells(dict, all[..n], out))
        else
          var m := LookedUp(|all|, old(rle_decoder.Left()));
          m <= |all| && ok == !Refused(dict, all[..m]) && (ok ==> Tells(dict, all[..m], out))
    {
      hide Decode, RleDecoder.Valid, RleDecoder.Pending, RleDecoder.Left, Refused, PastTheEnd, Tells, LookedUp;
      out := [];
      ok := true;
      ghost var all, whole := rle_decoder.Pending(), rle_decoder.Left();
      ghost var m: nat, q: nat := 0, 0;
      rle_decoder.LeftAtMost();
      LastBuffer(|all|, whole, 0);
      var full := true;
      NothingTold(dict);
      NoneRefused(dict);
      assert all[..0] == [];
      while ok && full && |out| < n
        invariant m <= |all| && m <= n && ok == !Refused(dict, all[..m]) && (ok ==> Tells(dict, all[..m], out))
        invariant ok && full ==> Valid() && |out| == m <= n && rle_decoder.Pending() == all[m..]
        invariant !full ==> n > |all| && (ok ==> m == LookedUp(|all|, whole))
        invariant ok && full ==> rle_decoder.Left() == Less(whole, m) && (n > |all| ==> m == BUFFER_SIZE * q)
        invariant !ok && n > |all| ==> Refused(dict, all[..LookedUp(|all|, whole)])
        invariant !ok && n <= |all| ==> Refused(dict, all[..n])
        decreases ok && full, n - m
      {
        var k := Min(n - |out|, BUFFER_SIZE);
        NextPart(dict, all, m, k, n);
        LastBuffer(|all|, whole, q);
        LastBuffer(|all|, whole, q + 1);
        var more;
        ghost var read;
        ok, full, more, read := ReadSome(k);
        TellsBoth(dict, all, m, read, n, out, more);
        m := m + read;
        q := q + 1;
        if !ok && n > |all| {
          RefusedLater(dict, all, m, LookedUp(|all|, whole));
        }
        out := out + more;
      }
    }

    /** One buffer full of indices: check them all, then look them up. */
    method ReadSome(k: nat) returns (ok: bool, full: bool, values: seq<Atom>, ghost read: nat)
      requires Valid() && !PastTheEnd(dict, Next(k))
      modifies rle_decoder, rle_decoder.bit_reader
      ensures var p := old(rle_decoder.Pending());
        && read <= |p| && read <= k && (full <==> k <= |p|) && read == (if full then k else old(rle_decoder.Left()))
        && ok == !Refused(dict, p[..read]) && (ok ==> |values| == read && Tells(dict, p[..read], values))
        && (full ==> Valid() && rle_decoder.Pending() == p[k..] && rle_decoder.Left() == Less(old(rle_decoder.Left()), k))
    {
      hide Decode, RleDecoder.Valid, RleDecoder.Pending, RleDecoder.Left;
      var buf := new nat[k];
      var n_read := rle_decoder.GetBatch(buf, k, 4);
      full, read := n_read == k, n_read;
      var indices := buf[..n_read];
      ok := forall i :: 0 <= i < |indices| ==> indices[i] <= |dict|;
      values := [];
      if ok {
        values := LookUp(dict, indices);
      }
    }
  }

  /** Set up a decoder on the values of a page; none for a width beyond 32 bits. */
  method OpenDictDecoder(dict: seq<Atom>, data: BitString, size: nat) returns (d: Option<DictDecoder>)
    requires |data| == 8 * size && size > 0
    ensures d.Some? <==> Nat(data[..8]) <= 32
    ensures d.Some? ==> fresh(d.value) && fresh(d.value.rle_decoder) && fresh(d.value.rle_decoder.bit_reader)
    ensures d.Some? ==> d.value.Valid() && d.value.dict == dict
    ensures d.Some? ==>
      && d.value.rle_decoder.Pending() == Decode(data[8..], Nat(data[..8]))
      && d.value.rle_decoder.Left() == Whole(data[8..], Nat(data[..8]))
  {
    hide Decode, Whole, Nat, RleDecoder.Valid, RleDecoder.Pending, RleDecoder.Left;
    var bit_width := Nat(data[..8]);
    if bit_width > 32 {
      return None;
    }
    var rle := new RleDecoder(data[8..], size - 1, bit_width);
    var decoder := new DictDecoder(dict, rle);
    return Some(decoder);
  }

  lemma {:induction false} NextPart(keys: seq<Atom>, all: seq<nat>, done: nat, k: nat, n: nat)
    requires done <= |all| && done + k <= n && !PastTheEnd(keys, all[..Min(n, |all|)])
    ensures !PastTheEnd(keys, all[done..][..Min(k, |all[done..]|)])
  {
    var rest := all[done..];
    var m := Min(k, |rest|);
    forall i | 0 <= i < m ensures rest[..m][i] == all[..Min(n, |all|)][done + i] {
    }
  }

  lemma {:induction false} RefusedLater(keys: seq<Atom>, all: seq<nat>, m: nat, later: nat)
    requires m <= later <= |all| && Refused(keys, all[..m])
    ensures Refused(keys, all[..later])
  {
    var i :| 0 <= i < m && all[..m][i] > |keys|;
    assert all[..later][i] == all[..m][i];
  }

  lemma {:induction false} NoneRefused(keys: seq<Atom>)
    ensures !Refused(keys, [])
  {
  }

  lemma {:induction false} TellsBoth(keys: seq<Atom>, all: seq<nat>, done: nat, k: nat, n: nat, out: seq<Atom>, more: seq<Atom>)
    requires done + k <= |all| && done + k <= n && Tells(keys, all[..done], out) && !Refused(keys, all[..done])
    ensures Tells(keys, all[done..][..k], more) ==> Tells(keys, all[..done + k], out + more)
    ensures Refused(keys, all[..done + k]) <==> Refused(keys, all[done..][..k])
    ensures Refused(keys, all[..done + k]) && n <= |all| ==> Refused(keys, all[..n])
  {
    hide Tells;
    var a, b := all[..done + k], all[done..][..k];
    assert a == all[..done] + b;
    forall i | 0 <= i < |a| ensures a[i] == if i < done then all[..done][i] else b[i - done] {
    }
    assert forall i :: 0 <= i < k ==> b[i] == a[done + i];
    if n <= |all| {
      assert forall i :: 0 <= i < |a| ==> a[i] == all[..n][i];
    }
    TellsParts(keys, all[..done], b, out, more);
  }

  lemma {:induction false} TellsParts(keys: seq<Atom>, a: seq<nat>, b: seq<nat>, x: seq<Atom>, y: seq<Atom>)
    requires Tells(keys, a, x)
    ensures Tells(keys, b, y) ==> Tells(keys, a + b, x + y)
  {
  }
}
