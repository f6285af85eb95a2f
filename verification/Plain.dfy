/**
The plain value encoding, for values of fixed size and byte arrays; and the one physical type
for which writer and reader disagree about it: booleans are written a byte each and read a bit
each.
 */
module PlainCoding {
  import opened Formats
  import opened Bits
  import opened BitPacking
  import opened BitReading
  import opened Records

  /** Physical types as far as values are coded: integers of so many bytes, floating point,
      booleans, fixed-length byte arrays, and byte arrays with their length. */
  datatype Kind = Number(size: nat) | Float | Double | Boolean | FixedLen(size: nat) | ByteArray
  {
    predicate Valid() {
      Number? || FixedLen? ==> size > 0
    }

    /** The bytes of a value that is not a byte array. */
    function Bytes(): nat {
      match this
      case Number(size) => size
      case FixedLen(size) => size
      case Float => 4
      case Double => 8
      case Boolean => 1
      case ByteArray => 0
    }
  }

  function KindOf(physical: PhysicalType, type_length: nat): Kind {
    match physical
    case BOOLEAN => Boolean
    case INT32 => Number(4)
    case INT64 => Number(8)
    case INT96 => Number(12)
    case FLOAT => Float
    case DOUBLE => Double
    case BYTE_ARRAY => ByteArray
    case FIXED_LEN_BYTE_ARRAY => FixedLen(type_length)
  }

  const MAX_LENGTH := 0x1_0000_0000

  predicate Storable(kind: Kind, v: Atom) {
    if kind.ByteArray? then |v| == 8 * (|v| / 8) && |v| / 8 < MAX_LENGTH else |v| == 8 * kind.Bytes()
  }

  predicate AllStorable(kind: Kind, vs: seq<Atom>) {
    forall i :: 0 <= i < |vs| ==> Storable(kind, vs[i])
  }

  function Code(kind: Kind, v: Atom): BitString {
    if kind.ByteArray? then ToBits(|v| / 8, 32) + v else v
  }

  function PlainCodes(kind: Kind, vs: seq<Atom>): BitString {
    if vs == [] then [] else Code(kind, vs[0]) + PlainCodes(kind, vs[1..])
  }

  lemma {:induction false} PlainAppend(kind: Kind, a: seq<Atom>, b: seq<Atom>)
    ensures PlainCodes(kind, a + b) == PlainCodes(kind, a) + PlainCodes(kind, b)
  {
    if a == [] {
      assert a + b == b;
    } else {
      assert (a + b)[0] == a[0] && (a + b)[1..] == a[1..] + b;
      PlainAppend(kind, a[1..], b);
      Associate(Code(kind, a[0]), PlainCodes(kind, a[1..]), PlainCodes(kind, b));
    }
  }

  lemma {:induction false} PlainBytes(kind: Kind, vs: seq<Atom>) returns (size: nat)
    requires AllStorable(kind, vs)
    ensures |PlainCodes(kind, vs)| == 8 * size
  {
    size := 0;
    if vs != [] {
      var others := PlainBytes(kind, vs[1..]);
      size := others + (if kind.ByteArray? then 4 + |vs[0]| / 8 else kind.Bytes());
      assert Storable(kind, vs[0]);
    }
  }

  // ----- Encoder -----

  class PlainEncoder {
    const kind: Kind
    var buf: BitString
    ghost var pending: seq<Atom>  // the values put since the last flush

    ghost predicate Valid()
      reads this
    {
      AllStorable(kind, pending) && buf == PlainCodes(kind, pending)
    }

    constructor (kind: Kind)
      ensures Valid() && this.kind == kind && pending == []
    {
      this.kind, buf, pending := kind, [], [];
    }

    method PutBatch(data: seq<Atom>)
      requires Valid() && AllStorable(kind, data)
      modifies this
      ensures Valid() && pending == old(pending) + data
    {
      hide PlainCodes, Storable;
      for i := 0 to |data|
        invariant Valid() && pending == old(pending) + data[..i]
      {
        PlainAppend(kind, pending, [data[i]]);
        OneCode(kind, data[i]);
        buf := buf + Code(kind, data[i]);
        pending := pending + [data[i]];
        Associate(old(pending), data[..i], [data[i]]);
        assert data[..i + 1] == data[..i] + [data[i]];
      }
      assert data[..|data|] == data;
    }

    /** Hand the encoded values out and start over. */
    method Flush() returns (view: BitString)
      requires Valid()
      modifies this
      ensures Valid() && pending == [] && view == PlainCodes(kind, old(pending))
    {
      view := buf;
      buf := [];
      pending := [];
    }
  }

  lemma {:induction false} OneCode(kind: Kind, v: Atom)
    ensures PlainCodes(kind, [v]) == Code(kind, v)
  {
    assert [v][1..] == [];
  }

  // ----- Decoder -----

  /** A byte array that a reader makes of one bit. */
  function BooleanAtom(bit: bool): (v: Atom)
    ensures |v| == 8
  {
    [bit] + Zeros(7)
  }

  datatype PlainResult = Values(values: seq<Atom>, rest: BitString) | EndOfPage

  /** The first value of a buffer: too few bytes end the values of numbers, and are an error in
      byte arrays; a boolean is a single bit. */
  function ReadOne(kind: Kind, b: BitString): (r: PlainResult)
    ensures r.Values? ==> |r.values| <= 1
    ensures r.Values? && r.values == [] ==> r.rest == b
    ensures r.Values? && |r.values| == 1 && b != [] && kind != FixedLen(0) && kind != Number(0) ==> |r.rest| < |b|
  {
    match kind
    case Boolean => if b == [] then Values([], b) else Values([BooleanAtom(b[0])], b[1..])
    case FixedLen(size) =>
      if b == [] then Values([], b)
      else if |b| < 8 * size then EndOfPage
      else Values([b[..8 * size]], b[8 * size..])
    case ByteArray =>
      if b == [] then Values([], b)
      else if |b| < 32 then EndOfPage
      else
        var len := Nat(b[..32]);
        if 8 * len > |b| - 32 then EndOfPage else Values([b[32..32 + 8 * len]], b[32 + 8 * len..])
    case _ =>
      var size := kind.Bytes();
      if |b| < 8 * size then Values([], b) else Values([b[..8 * size]], b[8 * size..])
  }

  /** At most `n` values, as many as there are. */
  function ReadPlain(kind: Kind, n: nat, b: BitString): (r: PlainResult)
    ensures r.Values? ==> |r.values| <= n
  {
    if n == 0 then Values([], b)
    else
      var first := ReadOne(kind, b);
      if first.EndOfPage? || first.values == [] then first
      else
        var others := ReadPlain(kind, n - 1, first.rest);
        if others.EndOfPage? then EndOfPage else Values(first.values + others.values, others.rest)
  }

  /** The bits hold these values, for a reader that asks for as many. */
  predicate ReadsAs(kind: Kind, b: BitString, data: seq<Atom>) {
    var r := ReadPlain(kind, |data|, b);
    r.Values? && r.values == data
  }

  /** The first `n` of them are read, and then the others. */
  lemma {:induction false} ReadsInParts(kind: Kind, b: BitString, data: seq<Atom>, n: nat)
    requires ReadsAs(kind, b, data) && n <= |data|
    ensures var r := ReadPlain(kind, n, b);
      r.Values? && r.values == data[..n] && ReadsAs(kind, r.rest, data[n..])
    decreases n
  {
    hide ReadOne;
    if n == 0 {
      assert data[0..] == data;
    } else {
      var first := ReadOne(kind, b);
      var others := ReadPlain(kind, |data| - 1, first.rest);
      assert first.values == [data[0]] && others.values == data[1..];
      ReadsInParts(kind, first.rest, data[1..], n - 1);
      DropDrop(data, 1, n - 1);
      assert data[..n] == [data[0]] + data[1..][..n - 1];
    }
  }

  class PlainDecoder {
    const kind: Kind
    var buffer: BitString

    constructor (kind: Kind)
      ensures this.kind == kind && buffer == []
    {
      this.kind, buffer := kind, [];
    }

    method Reset(data: BitString)
      modifies this
      ensures buffer == data
    {
      buffer := data;
    }

    /** The next `n` values, fewer at the end of the page; an error in the middle of a value. */
    method ReadBatch(n: nat) returns (ok: bool, out: seq<Atom>)
      requires !kind.Boolean?
      modifies this
      ensures ReadPlain(kind, n, old(buffer)) == if ok then Values(out, buffer) else EndOfPage
    {
      hide ReadOne;
      out := [];
      ghost var all := buffer;
      var i := 0;
      while i < n
        invariant i <= n && ReadPlain(kind, n, all) == After(out, ReadPlain(kind, n - i, buffer))
      {
        var first := ReadOne(kind, buffer);
        if first.EndOfPage? {
          return false, [];
        }
        AfterTwice(out, first.values, ReadPlain(kind, n - i - 1, first.rest));
        out := out + first.values;
        buffer := first.rest;
        if first.values == [] {
          break;
        }
        i := i + 1;
      }
      ok := true;
    }
  }

  function After(values: seq<Atom>, r: PlainResult): PlainResult {
    if r.EndOfPage? then EndOfPage else Values(values + r.values, r.rest)
  }

  lemma {:induction false} AfterTwice(a: seq<Atom>, b: seq<Atom>, r: PlainResult)
    ensures After(a, After(b, r)) == After(a + b, r)
  {
    if r.Values? {
      Associate(a, b, r.values);
    }
  }

  /** Booleans are read through a bit reader, one bit each. */
  class BooleanDecoder {
    const decoder: BitReader

    constructor (data: BitString, size: nat)
      requires |data| == 8 * size
      ensures decoder.Valid() && decoder.Rest() == data && fresh(decoder)
    {
      decoder := new BitReader(data, size);
    }

    /** The next `n` booleans, fewer at the end of the page. */
    method ReadBatch(n: nat) returns (out: seq<Atom>)
      requires decoder.Valid()
      modifies decoder
      ensures decoder.Valid() && ReadPlain(Boolean, n, old(decoder.Rest())) == Values(out, decoder.Rest())
    {
      hide Unpack, ReadPlain, Available;
      ghost var rest := decoder.Rest();
      var buf := new nat[n];
      AvailableBits(n, |rest|);
      var n_read := decoder.GetBatch(1, buf, 0, n, 1);
      SpanOfOnes(n_read);
      BitsAreBooleans(rest, n);
      out := BooleanAtoms(seq(n_read, i requires 0 <= i < n_read reads buf => buf[i] == 1));
      forall i | 0 <= i < n_read ensures buf[i] == if rest[i] then 1 else 0 {
        BitAt(rest, n_read, i);
        assert buf[0..n_read][i] == buf[i];
      }
      assert out == BooleanAtoms(rest[..n_read]);
    }
  }

  function BooleanAtoms(bits: BitString): (vs: seq<Atom>)
    ensures |vs| == |bits|
  {
    seq(|bits|, i requires 0 <= i < |bits| => BooleanAtom(bits[i]))
  }

  lemma {:induction false} AvailableBits(n: nat, remaining: nat)
    ensures Available(n, 1, remaining) == Min(n, remaining)
  {
    SpanOfOnes(Min(n, remaining));
    SpanOfOnes(Min(n, remaining) + 1);
    AvailableUnique(n, 1, remaining, Min(n, remaining));
  }

  /** Reading booleans takes bits as long as there are any. */
  lemma {:induction false} BitsAreBooleans(b: BitString, n: nat)
    ensures var m := Min(n, |b|); ReadPlain(Boolean, n, b) == Values(BooleanAtoms(b[..m]), b[m..])
    decreases n
  {
    if n > 0 && b != [] {
      hide BooleanAtom;
      var m := Min(n, |b|);
      BitsAreBooleans(b[1..], n - 1);
      DropDrop(b, 1, m - 1);
      OneMoreBit(b, m);
    }
  }

  lemma {:induction false} OneMoreBit(b: BitString, m: nat)
    requires 0 < m <= |b|
    ensures BooleanAtoms(b[..m]) == [BooleanAtom(b[0])] + BooleanAtoms(b[1..][..m - 1])
  {
    hide BooleanAtom;
    assert b[..m] == [b[0]] + b[1..][..m - 1];
  }

  lemma {:induction false} BitAt(b: BitString, n: nat, i: nat)
    requires i < n <= |b|
    ensures Span(n, 1) == n && Unpack(b, 1, n)[i] == if b[i] then 1 else 0
  {
    hide Unpack, Nat;
    SpanOfOnes(n);
    SpanOfOnes(i);
    UnpackAt(b, 1, n, i);
    assert b[i..i + 1] == [b[i]];
    NatOfBit(b[i]);
  }

  lemma {:induction false} NatOfBit(bit: bool)
    ensures Nat([bit]) == if bit then 1 else 0
  {
    assert [bit][1..] == [];
  }

  // ----- Round trip -----

  lemma {:induction false} ReadOneOfCode(kind: Kind, v: Atom, rest: BitString)
    requires Storable(kind, v)
    requires !kind.Boolean?
    ensures Code(kind, v) + rest != [] || kind.Number? ==> ReadOne(kind, Code(kind, v) + rest) == Values([v], rest)
  {
    hide Nat, ToBits;
    var b := Code(kind, v) + rest;
    if kind.ByteArray? {
      var header := ToBits(|v| / 8, 32);
      Pow2Values();
      NatOfToBits(|v| / 8, 32);
      Associate(header, v, rest);
      assert b[..32] == header && b[32..32 + |v|] == v && b[32 + |v|..] == rest;
    } else {
      Parts(v, rest);
    }
  }

  /** Any batch of encoded values is read back, and leaves the others. */
  lemma {:induction false} PlainReadsBack(kind: Kind, vs: seq<Atom>, n: nat, rest: BitString)
    requires AllStorable(kind, vs) && n <= |vs| && kind != FixedLen(0) && !kind.Boolean?
    ensures ReadPlain(kind, n, PlainCodes(kind, vs) + rest) == Values(vs[..n], PlainCodes(kind, vs[n..]) + rest)
  {
    hide Code, ReadOne, Storable;
    if n == 0 {
      assert vs[0..] == vs;
    } else {
      var tail := PlainCodes(kind, vs[1..]) + rest;
      Associate(Code(kind, vs[0]), PlainCodes(kind, vs[1..]), rest);
      CodeNotEmpty(kind, vs[0]);
      ReadOneOfCode(kind, vs[0], tail);
      PlainReadsBack(kind, vs[1..], n - 1, rest);
      DropDrop(vs, 1, n - 1);
      assert vs[..n] == [vs[0]] + vs[1..][..n - 1];
    }
  }

  lemma {:induction false} CodeNotEmpty(kind: Kind, v: Atom)
    requires Storable(kind, v) && kind != FixedLen(0)
    ensures kind.Number? || Code(kind, v) != []
  {
  }

  /** No value begins here: the page is at its end, or less than a number is left. */
  predicate AtEnd(kind: Kind, b: BitString) {
    match kind
    case ByteArray | FixedLen(_) => b == []
    case Number(size) => |b| < 8 * size
    case Float => |b| < 32
    case Double => |b| < 64
    case Boolean => b == []
  }

  /** What is read from any bytes: these values if and only if the bytes are their codes, and there are
      as many as asked for or nothing is left; an error in all other cases. */
  lemma {:induction false} PlainReadIff(kind: Kind, n: nat, b: BitString, vs: seq<Atom>, rest: BitString)
    requires kind != FixedLen(0) && kind != Number(0) && !kind.Boolean?
    ensures ReadPlain(kind, n, b) == Values(vs, rest) <==>
      && AllStorable(kind, vs) && b == PlainCodes(kind, vs) + rest
      && |vs| <= n && (|vs| < n ==> AtEnd(kind, rest))
  {
    hide ReadPlain, AllStorable, PlainCodes, AtEnd;
    if ReadPlain(kind, n, b) == Values(vs, rest) {
      ReadIsCoded(kind, n, b, vs, rest);
    }
    if AllStorable(kind, vs) && b == PlainCodes(kind, vs) + rest && |vs| <= n && (|vs| < n ==> AtEnd(kind, rest)) {
      CodedIsRead(kind, n, vs, rest);
    }
  }

  lemma {:induction false} OneMorePlain(kind: Kind, v: Atom, vs: seq<Atom>, rest: BitString)
    ensures PlainCodes(kind, [v] + vs) + rest == Code(kind, v) + (PlainCodes(kind, vs) + rest)
    ensures AllStorable(kind, [v] + vs) <==> Storable(kind, v) && AllStorable(kind, vs)
  {
    hide Code, Storable;
    var all := [v] + vs;
    assert all[1..] == vs && all[0] == v;
    Associate(Code(kind, v), PlainCodes(kind, vs), rest);
    assert forall i :: 0 <= i < |vs| ==> vs[i] == all[i + 1];
  }

  lemma {:induction false} NothingPlain(kind: Kind, rest: BitString)
    ensures PlainCodes(kind, []) + rest == rest && AllStorable(kind, [])
  {
  }

  lemma {:induction false} CodedIsRead(kind: Kind, n: nat, vs: seq<Atom>, rest: BitString)
    requires kind != FixedLen(0) && kind != Number(0) && !kind.Boolean?
    requires AllStorable(kind, vs) && |vs| <= n && (|vs| < n ==> AtEnd(kind, rest))
    ensures ReadPlain(kind, n, PlainCodes(kind, vs) + rest) == Values(vs, rest)
  {
    hide Storable, AllStorable, Code, PlainCodes, ReadOne, AtEnd;
    if vs == [] {
      NothingPlain(kind, rest);
      ReadNoneIff(kind, rest);
    } else {
      var v, later := vs[0], vs[1..];
      assert vs == [v] + later;
      OneMorePlain(kind, v, later, rest);
      CodeNotEmpty(kind, v);
      ReadOneOfCode(kind, v, PlainCodes(kind, later) + rest);
      CodedIsRead(kind, n - 1, later, rest);
    }
  }

  lemma {:induction false} ReadIsCoded(kind: Kind, n: nat, b: BitString, vs: seq<Atom>, rest: BitString)
    requires kind != FixedLen(0) && kind != Number(0) && !kind.Boolean? && ReadPlain(kind, n, b) == Values(vs, rest)
    ensures AllStorable(kind, vs) && b == PlainCodes(kind, vs) + rest && |vs| <= n && (|vs| < n ==> AtEnd(kind, rest))
  {
    hide Storable, AllStorable, Code, PlainCodes, ReadOne, AtEnd;
    ReadNoneIff(kind, b);
    NothingPlain(kind, rest);
    var first := ReadOne(kind, b);
    if n > 0 && first.values != [] {
      var v := first.values[0];
      assert first.values == [v];
      OneIsCoded(kind, b, v, first.rest);
      var later := ReadPlain(kind, n - 1, first.rest).values;
      ReadIsCoded(kind, n - 1, first.rest, later, rest);
      OneMorePlain(kind, v, later, rest);
    }
  }

  lemma {:induction false} ReadNoneIff(kind: Kind, b: BitString)
    requires kind != FixedLen(0) && kind != Number(0) && !kind.Boolean?
    ensures var r := ReadOne(kind, b);
      (r.Values? && r.values == [] <==> AtEnd(kind, b)) && (r.Values? ==> |r.values| <= 1) && (AtEnd(kind, b) ==> r.rest == b)
  {
    hide Nat;
  }

  /** A value that is read is the one whose code is there. */
  lemma {:induction false} OneIsCoded(kind: Kind, b: BitString, v: Atom, rest: BitString)
    requires !kind.Boolean? && ReadOne(kind, b) == Values([v], rest)
    ensures Storable(kind, v) && b == Code(kind, v) + rest
  {
    hide Nat, ToBits, Pow2;
    if kind.ByteArray? {
      Pow2Values();
      NatBound(b[..32]);
      ToBitsOfNat(b[..32]);
      var len := 8 * Nat(b[..32]);
      assert v == b[32..32 + len] && rest == b[32 + len..];
      ThreeParts(b, 32, 32 + len);
    } else {
      assert b == v + rest;
    }
  }

  lemma {:induction false} ThreeParts(b: BitString, i: nat, j: nat)
    requires i <= j <= |b|
    ensures b == b[..i] + b[i..j] + b[j..]
  {
  }

  /** Values of no bytes at all are the exception: an empty page cannot be told from its end. */
  lemma {:induction false} EmptyValuesAreLost(n: nat)
    requires n > 0
    ensures PlainCodes(FixedLen(0), [[]]) == [] && ReadPlain(FixedLen(0), n, []) == Values([], [])
  {
    OneCode(FixedLen(0), []);
  }

  // ----- Booleans -----

  const FALSE := Zeros(8)
  const TRUE := [true] + Zeros(7)

  /** The bit at place `i` of the bytes of `vs`. */
  predicate BitOf(vs: seq<Atom>, i: nat)
    requires i < 8 * |vs|
  {
    i % 8 < |vs[i / 8]| && vs[i / 8][i % 8]
  }

  /** What a reader makes of the plain codes of `vs`: booleans are the first bits of their bytes. */
  function PlainRead(kind: Kind, vs: seq<Atom>): (r: seq<Atom>)
    ensures |r| == |vs|
  {
    if kind.Boolean? then seq(|vs|, i requires 0 <= i < |vs| => BooleanAtom(BitOf(vs, i))) else vs
  }

  lemma {:induction false} BooleanCodeAt(vs: seq<Atom>, i: nat)
    requires AllStorable(Boolean, vs) && i < 8 * |vs|
    ensures |PlainCodes(Boolean, vs)| == 8 * |vs| && PlainCodes(Boolean, vs)[i] == BitOf(vs, i)
  {
    BooleanBytes(vs);
    assert Storable(Boolean, vs[0]);
    if i >= 8 {
      BooleanBytes(vs[1..]);
      BooleanCodeAt(vs[1..], i - 8);
      QuotientUnique(i, 8, (i - 8) / 8 + 1, i % 8);
    }
  }

  lemma {:induction false} BooleanBytes(vs: seq<Atom>)
    requires AllStorable(Boolean, vs)
    ensures |PlainCodes(Boolean, vs)| == 8 * |vs|
  {
    if vs != [] {
      assert Storable(Boolean, vs[0]);
      BooleanBytes(vs[1..]);
    }
  }

  /** That is what the decoders read. */
  lemma {:induction false} PlainCodesRead(kind: Kind, vs: seq<Atom>)
    requires AllStorable(kind, vs) && kind.Valid()
    ensures ReadsAs(kind, PlainCodes(kind, vs), PlainRead(kind, vs))
  {
    hide ReadPlain, PlainCodes, Storable, BitOf;
    var b := PlainCodes(kind, vs);
    if kind.Boolean? {
      BooleanBytes(vs);
      BitsAreBooleans(b, |vs|);
      forall i | 0 <= i < |vs| ensures b[i] == BitOf(vs, i) {
        BooleanCodeAt(vs, i);
      }
      assert BooleanAtoms(b[..|vs|]) == PlainRead(kind, vs);
    } else {
      PlainReadsBack(kind, vs, |vs|, []);
      assert b + [] == b && vs[..|vs|] == vs;
    }
  }

  /** What has been read stays as it is when more values follow. */
  lemma {:induction false} PlainReadGrows(kind: Kind, vs: seq<Atom>, later: seq<Atom>)
    requires vs <= later
    ensures PlainRead(kind, vs) <= PlainRead(kind, later)
  {
    if kind.Boolean? {
      forall i | 0 <= i < |vs| ensures BitOf(vs, i) == BitOf(later, i) {
        assert vs[i / 8] == later[i / 8];
      }
    }
  }

  /** The value at place `i` may be true if it is the first one. */
  predicate TrueFirst(vs: seq<Atom>) {
    forall i :: 0 <= i < |vs| ==> vs[i] == FALSE || (i == 0 && vs[i] == TRUE)
  }

  /** Plainly encoded booleans come back exactly when all of them but the first are false. */
  lemma {:induction false} BooleansReadBackIff(vs: seq<Atom>)
    ensures PlainRead(Boolean, vs) == vs <==> TrueFirst(vs)
  {
    var read := PlainRead(Boolean, vs);
    if TrueFirst(vs) {
      forall i | 0 <= i < |vs| ensures read[i] == vs[i] {
        assert vs[i / 8] == FALSE || (i / 8 == 0 && vs[0] == TRUE);
        assert vs[i] == BooleanAtom(vs[i][0]);
      }
      assert read == vs;
    }
    if read == vs {
      forall i | 0 <= i < |vs| ensures vs[i] == FALSE || vs[i] == TRUE {
        assert read[i] == BooleanAtom(BitOf(vs, i));
      }
      forall i | 1 <= i < |vs| ensures vs[i] == FALSE {
        LaterIsFalse(vs, i);
      }
    }
  }

  lemma {:induction false} LaterIsFalse(vs: seq<Atom>, i: nat)
    requires forall k :: 0 <= k < |vs| ==> vs[k] == BooleanAtom(BitOf(vs, k)) && (vs[k] == FALSE || vs[k] == TRUE)
    requires 1 <= i < |vs|
    ensures vs[i] == FALSE
  {
    var j := i / 8;
    if i % 8 == 0 {
      LaterIsFalse(vs, j);
    }
    assert !BitOf(vs, i) by {
      assert vs[j] == FALSE || vs[j] == TRUE;
    }
  }

  /** One boolean more after others that come back. */
  lemma {:induction false} OneMoreBoolean(vs: seq<Atom>, v: Atom)
    requires TrueFirst(vs)
    ensures PlainRead(Boolean, vs + [v])[|vs|] == v <==> v == FALSE || (v == TRUE && vs == [])
  {
    hide PlainRead;
    var more := vs + [v];
    BooleansReadBackIff(vs);
    BooleansReadBackIff(more);
    PlainReadGrows(Boolean, vs, more);
    FrontAndLast(PlainRead(Boolean, more));
    assert more[|vs|] == v && forall i :: 0 <= i < |vs| ==> more[i] == vs[i];
    assert PlainRead(Boolean, more) == PlainRead(Boolean, vs) + [PlainRead(Boolean, more)[|vs|]];
  }

  /** Two booleans that are read back wrong. */
  lemma {:induction false} TrueAfterFalse()
    ensures ReadsAs(Boolean, PlainCodes(Boolean, [FALSE, TRUE]), [FALSE, FALSE])
  {
    PlainCodesRead(Boolean, [FALSE, TRUE]);
    var read := PlainRead(Boolean, [FALSE, TRUE]);
    assert read[0] == BooleanAtom(FALSE[0]) == FALSE;
    assert read[1] == BooleanAtom(FALSE[1]) == FALSE;
  }

  /** Values of a kind are always read back, except booleans and fixed-length arrays of no bytes. */
  lemma {:induction false} AlwaysReadBackIff(kind: Kind)
    ensures (forall vs: seq<Atom> :: AllStorable(kind, vs) ==> ReadsAs(kind, PlainCodes(kind, vs), vs))
      <==> kind != FixedLen(0) && kind != Boolean
  {
    hide ReadPlain;
    if kind == FixedLen(0) {
      EmptyValuesAreLost(1);
      assert AllStorable(kind, [[]]);
      assert !ReadsAs(kind, PlainCodes(kind, [[]]), [[]]);
    } else if kind == Boolean {
      TrueAfterFalse();
      assert AllStorable(kind, [FALSE, TRUE]);
      assert !ReadsAs(kind, PlainCodes(kind, [FALSE, TRUE]), [FALSE, TRUE]);
    } else {
      forall vs: seq<Atom> | AllStorable(kind, vs) ensures ReadsAs(kind, PlainCodes(kind, vs), vs) {
        PlainReadsBack(kind, vs, |vs|, []);
        assert PlainCodes(kind, vs) + [] == PlainCodes(kind, vs) && vs[..|vs|] == vs;
      }
    }
  }
}
