/**
The encoders and decoders of the values of a page: a dictionary that falls back to plain when
it grows too big, and the decoder that a page's encoding selects. What a reader gets for a value
depends on what has been put before it, and is told by a small state machine.
 */
module ValueCoding {
  import opened Options
  import opened Formats
  import opened Bits
  import opened BitReading
  import opened Records
  import opened Rle
  import opened RleDecoding
  import opened RleEncoding
  import opened PlainCoding
  import opened Dictionaries

  predicate IsDictionary(encoding: Encoding) {
    encoding == RLE_DICTIONARY || encoding == PLAIN_DICTIONARY
  }

  /** The encodings of this model that column writers have for values of any kind. */
  predicate Codable(encoding: Encoding) {
    encoding == PLAIN || encoding == RLE_DICTIONARY
  }

  /** A reader with the dictionary `keys` gets `data` from the bytes of a page's values. */
  ghost predicate Denotes(kind: Kind, keys: seq<Atom>, encoding: Encoding, bits: BitString, data: seq<Atom>) {
    if encoding == PLAIN then ReadsAs(kind, bits, data) else IsDictionary(encoding) && IndexPage(bits, keys, data)
  }

  /** The dictionary encoding has two names, that of the page's values and that of older files; what
      has neither and is not plain denotes nothing. */
  lemma {:induction false} EncodingsRead(kind: Kind, keys: seq<Atom>, encoding: Encoding, bits: BitString, data: seq<Atom>)
    ensures Denotes(kind, keys, encoding, bits, data) <==>
      match encoding
      case PLAIN => ReadsAs(kind, bits, data)
      case RLE_DICTIONARY | PLAIN_DICTIONARY => IndexPage(bits, keys, data)
      case _ => false
  {
  }

  /** A page keeps its meaning while the dictionary grows. */
  lemma {:induction false} DenotesLater(
    kind: Kind, keys: seq<Atom>, later: seq<Atom>, encoding: Encoding, bits: BitString, data: seq<Atom>)
    requires Denotes(kind, keys, encoding, bits, data) && keys <= later
    ensures Denotes(kind, later, encoding, bits, data)
  {
    hide IndexPage, ReadsAs;
    if encoding != PLAIN {
      IndexPageLater(bits, keys, later, data);
    }
  }

  // ----- What becomes of a value -----

  /** A dictionary of more bytes than this makes the encoder fall back to plain. */
  const FALLBACK_THRESHOLD := 16 * 1024

  /** The state of an encoder: its dictionary, whether it writes plain values, and the values and
      indices put since the last page. */
  datatype Coder = Coder(kind: Kind, keys: seq<Atom>, fallen_back: bool, page: seq<Atom>, indices: seq<nat>)
  {
    function Put(v: Atom): Coder {
      if fallen_back then this.(page := page + [v])
      else this.(keys := NextKeys(kind, keys, v), page := page + [v], indices := indices + [Place(kind, keys, v)])
    }

    /** What a reader gets for the value when it is put now. */
    function Read(v: Atom): Atom {
      if fallen_back then PlainRead(kind, page + [v])[|page|] else DictRead(kind, keys, v)
    }

    /** A page ends; the one that crosses the threshold is still dictionary encoded. */
    function Flush(): Coder {
      this.(page := [], indices := [], fallen_back := fallen_back || |PlainCodes(kind, keys)| > 8 * FALLBACK_THRESHOLD)
    }

    function PutAll(data: seq<Atom>): Coder {
      if data == [] then this else PutAll(data[..|data| - 1]).Put(data[|data| - 1])
    }

    function ReadAll(data: seq<Atom>): seq<Atom> {
      if data == [] then []
      else
        var front, v := data[..|data| - 1], data[|data| - 1];
        ReadAll(front) + [PutAll(front).Read(v)]
    }

    /** The value is read back, if those before it have been: a zero in the dictionary has its
        sign, only the first boolean of a plain page is true, or the first one in the dictionary. */
    predicate Keeps(v: Atom) {
      match kind
      case Boolean => v == FALSE || (v == TRUE && if fallen_back then page == [] else keys == [] || keys[0] == TRUE)
      case _ => fallen_back || (IsZero(kind, v) ==> forall k :: k in keys && IsZero(kind, k) ==> k == v)
    }

    /** The values that matter for those to come have been read back. */
    predicate Kept() {
      Distinct(kind, keys) && (kind.Boolean? ==> TrueFirst(keys) && (fallen_back ==> TrueFirst(page)))
    }

    /** A value is read back exactly if the state keeps it. */
    lemma {:induction false} ReadIffKeeps(v: Atom)
      requires Kept()
      ensures Read(v) == v <==> Keeps(v)
      ensures Keeps(v) ==> Put(v).Kept()
    {
      hide IsZero, SameKey, PlainRead, DictRead;
      if kind.Boolean? {
        BooleanIffKeeps(v);
      } else {
        FirstOccurrencesOfOne(kind, keys, v);
        if fallen_back {
          PlainIsExact(kind, page + [v]);
        } else if Floating(kind) {
          FloatReadBackIff(kind, keys, v);
        } else {
          ExactReadBack(kind, keys, v);
          NoZeros(kind, v);
        }
      }
    }

    lemma {:induction false} BooleanIffKeeps(v: Atom)
      requires Kept() && kind.Boolean?
      ensures Read(v) == v <==> Keeps(v)
      ensures Keeps(v) ==> Put(v).Kept()
    {
      hide PlainRead, DictRead, IsZero;
      FirstOccurrencesOfOne(kind, keys, v);
      if fallen_back {
        OneMoreBoolean(page, v);
      } else {
        BooleanReadBackIff(keys, v);
        assert keys != [] && keys[0] == v ==> SameKey(kind, keys[0], v);
      }
    }

    lemma {:induction false} FlushKeeps()
      requires Kept()
      ensures Flush().Kept()
    {
    }

    /** Putting many values at once. */
    lemma {:induction false} AllAtOnce(data: seq<Atom>)
      ensures PutAll(data) ==
        if fallen_back then this.(page := page + data)
        else this.(keys := FirstOccurrences(kind, keys, data), page := page + data, indices := indices + Places(kind, keys, data))
      ensures ReadAll(data)
        == if fallen_back then PlainRead(kind, page + data)[|page|..] else DictReads(kind, keys, data)
    {
      hide PlainRead, DictRead, NextKeys, Place;
      if data == [] {
        assert page + data == page && indices + [] == indices;
      } else {
        var front, v := data[..|data| - 1], data[|data| - 1];
        AllAtOnce(front);
        FrontAndLast(data);
        Associate(page, front, [v]);
        Associate(indices, Places(kind, keys, front), [Place(kind, FirstOccurrences(kind, keys, front), v)]);
        PlainReadGrows(kind, page + front, page + front + [v]);
        OneMore(PlainRead(kind, page + front), PlainRead(kind, page + data), |page|);
      }
    }

    lemma {:induction false} JustOne(v: Atom)
      ensures PutAll([v]) == Put(v) && ReadAll([v]) == [Read(v)]
    {
      assert [v][..0] == [];
    }

    lemma {:induction false} ReadSize(v: Atom)
      requires Storable(kind, v)
      ensures |Read(v)| == |v|
    {
      hide DictRead;
      if fallen_back {
        assert (page + [v])[|page|] == v;
      } else {
        DictReadSize(kind, keys, v);
      }
    }

    lemma {:induction false} ReadSizes(data: seq<Atom>)
      requires AllStorable(kind, data)
      ensures SameSizes(data, ReadAll(data))
    {
      hide Storable, Coder.Read, NextKeys, PlainRead, DictReads, FirstOccurrences;
      if data != [] {
        var front, v := data[..|data| - 1], data[|data| - 1];
        AllAtOnce(front);
        ReadSizes(front);
        assert Storable(kind, v);
        PutAll(front).ReadSize(v);
      }
    }
  }

  /** The state of a new encoder. */
  function NewCoder(kind: Kind, encoding: Encoding): Coder {
    Coder(kind, [], encoding == PLAIN, [], [])
  }

  lemma {:induction false} FirstOccurrencesOfOne(kind: Kind, keys: seq<Atom>, v: Atom)
    ensures Distinct(kind, keys) ==> Distinct(kind, NextKeys(kind, keys, v))
  {
  }

  lemma {:induction false} PlainIsExact(kind: Kind, vs: seq<Atom>)
    requires !kind.Boolean?
    ensures PlainRead(kind, vs) == vs
  {
  }

  lemma {:induction false} NoZeros(kind: Kind, v: Atom)
    requires !Floating(kind)
    ensures !IsZero(kind, v)
  {
  }

  lemma {:induction false} OneMore(a: seq<Atom>, b: seq<Atom>, n: nat)
    requires a <= b && |b| == |a| + 1 && n <= |a|
    ensures b[n..] == a[n..] + [b[|a|]]
  {
  }

  predicate SameSizes(a: seq<Atom>, b: seq<Atom>) {
    |a| == |b| && forall i :: 0 <= i < |a| ==> |a[i]| == |b[i]|
  }

  lemma {:induction false} CodesOfSameSize(kind: Kind, a: seq<Atom>, b: seq<Atom>)
    requires SameSizes(a, b)
    ensures |PlainCodes(kind, a)| == |PlainCodes(kind, b)|
  {
    if a != [] {
      CodesOfSameSize(kind, a[1..], b[1..]);
    }
  }

  // ----- Encoder -----

  class ValueEncoder {
    const kind: Kind
    const dictionary: bool  // made for dictionary encoding
    const dict_encoder: DictEncoder
    const plain_encoder: PlainEncoder
    var fallen_back: bool
    ghost var pending: seq<Atom>  // the values put since the last flush
    ghost var told: seq<Atom>     // what a reader gets for them

    ghost predicate Valid()
      reads this, dict_encoder, dict_encoder.values, plain_encoder
    {
      && dict_encoder.Valid() && plain_encoder.Valid() && kind.Valid() && SameSizes(pending, told)
      && dict_encoder.values.kind == kind == plain_encoder.kind
      && (!dictionary ==> fallen_back && Keys() == [])
      && (if fallen_back then dict_encoder.told == [] && pending == plain_encoder.pending && told == PlainRead(kind, pending)
          else plain_encoder.pending == [] && told == dict_encoder.told)
      && (pending == [] && DictBits() > 8 * FALLBACK_THRESHOLD ==> fallen_back)
    }

    /** The values in the dictionary, in order. */
    ghost function Keys(): seq<Atom>
      reads this, dict_encoder, dict_encoder.values
    {
      dict_encoder.values.keys
    }

    /** The dictionary that a reader gets. */
    ghost function ReadKeys(): seq<Atom>
      reads this, dict_encoder, dict_encoder.values
    {
      PlainRead(kind, Keys())
    }

    ghost function State(): Coder
      reads this, dict_encoder, dict_encoder.values
    {
      Coder(kind, Keys(), fallen_back, pending, dict_encoder.indices)
    }

    /** The size of the dictionary. */
    function DictBits(): nat
      reads this, dict_encoder, dict_encoder.values
    {
      |dict_encoder.values.dict|
    }

    constructor (kind: Kind, encoding: Encoding)
      requires kind.Valid() && Codable(encoding)
      ensures Valid() && pending == told == [] && DictBits() == 0
      ensures this.kind == kind && dictionary == (encoding == RLE_DICTIONARY)
      ensures State() == NewCoder(kind, encoding)
      ensures fresh(dict_encoder) && fresh(dict_encoder.values) && fresh(plain_encoder)
    {
      this.kind, dictionary, fallen_back := kind, encoding == RLE_DICTIONARY, encoding == PLAIN;
      dict_encoder := new DictEncoder(kind);
      plain_encoder := new PlainEncoder(kind);
      pending, told := [], [];
    }

    method PutBatch(data: seq<Atom>)
      requires Valid() && AllStorable(kind, data)
      modifies this, dict_encoder, dict_encoder.values, plain_encoder
      ensures Valid() && State() == old(State()).PutAll(data)
      ensures told == old(told) + old(State()).ReadAll(data)
      ensures DictBits() <= old(DictBits()) + |PlainCodes(kind, data)|
    {
      hide PlainCodes, FirstOccurrences, Places, DictReads, DictEncoder.Valid, Storable, PlainRead, Coder.PutAll, Coder.ReadAll;
      ghost var c := State();
      c.AllAtOnce(data);
      c.ReadSizes(data);
      if fallen_back {
        plain_encoder.PutBatch(data);
        PlainReadGrows(kind, pending, pending + data);
      } else {
        dict_encoder.PutBatch(data);
        NothingMore(kind, data);
      }
      SizesAppend(pending, told, data, c.ReadAll(data));
      pending := pending + data;
      told := told + c.ReadAll(data);
    }

    function MaxEncodedSize(): nat
      reads this, dict_encoder, dict_encoder.values, plain_encoder
    {
      if fallen_back then CeilDiv8(|plain_encoder.buf|) else dict_encoder.MaxEncodedSize()
    }

    /** Hand out the page of the pending values. The page that crosses the threshold is still
        dictionary encoded; the later ones are plain. */
    method Flush() returns (view: BitString, size: nat, encoding: Encoding)
      requires Valid() && |Keys()| < 0x1_0000_0000 && (!fallen_back ==> RunsFit(dict_encoder.indices))
      modifies this, dict_encoder, plain_encoder
      ensures Valid() && told == [] && |view| == 8 * size
      ensures State() == old(State()).Flush() && DictBits() == old(DictBits())
      ensures |view| <= ValueRoom(kind, old(told)) && size <= old(MaxEncodedSize())
      ensures Denotes(kind, ReadKeys(), encoding, view, old(told))
      ensures encoding == (if old(fallen_back) then PLAIN else RLE_DICTIONARY)
      ensures encoding == RLE_DICTIONARY ==> dictionary
    {
      hide PlainCodes, FirstOccurrences, IndexPage, Storable, Tells, ReadPlain, PlainRead, RunsFit;
      CodesOfSameSize(kind, pending, told);
      SameLength(PlainRead(kind, Keys()), dict_encoder.indices, dict_encoder.told);
      if fallen_back {
        ghost var bytes := PlainBytes(kind, pending);
        PlainCodesRead(kind, pending);
        view := plain_encoder.Flush();
        size := |view| / 8;
        encoding := PLAIN;
      } else {
        if |dict_encoder.values.dict| > 8 * FALLBACK_THRESHOLD {
          fallen_back := true;
        }
        view, size := FlushIndices();
        encoding := RLE_DICTIONARY;
      }
      pending, told := [], [];
      NothingRead(kind);
    }

    /** The page of the pending indices, in a buffer as large as the encoder may need. */
    method FlushIndices() returns (view: BitString, size: nat)
      requires dict_encoder.Valid() && RunsFit(dict_encoder.indices) && |Keys()| < 0x1_0000_0000
      modifies dict_encoder
      ensures dict_encoder.Valid() && dict_encoder.told == [] && dict_encoder.indices == [] && |view| == 8 * size
      ensures size <= old(dict_encoder.MaxEncodedSize())
      ensures IndexPage(view, PlainRead(dict_encoder.values.kind, Keys()), old(dict_encoder.told))
      ensures |view| <= IndexRoom(|old(dict_encoder.told)|)
    {
      hide FirstOccurrences, DictBuilder.Valid, IndexPage, PlainRead, RunsFit;
      CardinalityIsKeys(dict_encoder.values);
      PageFits(dict_encoder);
      var sink := new bool[8 * dict_encoder.MaxEncodedSize()];
      size := dict_encoder.Flush(sink, 0);
      view := sink[0..8 * size];
    }

    /** The dictionary, for an encoder that has one, and the number of its keys. */
    method ViewDict() returns (view: Option<BitString>, cardinality: nat)
      requires Valid()
      ensures view == if dictionary then Some(PlainCodes(kind, Keys())) else None
      ensures view.Some? ==> |view.value| == DictBits()
      ensures cardinality == |Keys()| && AllStorable(kind, Keys()) && (!dictionary ==> Keys() == [])
    {
      hide Storable, PlainCodes;
      view := if dictionary then Some(dict_encoder.values.dict) else None;
      CardinalityIsKeys(dict_encoder.values);
      cardinality := dict_encoder.values.Cardinality();
    }
  }

  lemma {:induction false} SizesAppend(a: seq<Atom>, b: seq<Atom>, c: seq<Atom>, d: seq<Atom>)
    requires SameSizes(a, b) && SameSizes(c, d)
    ensures SameSizes(a + c, b + d)
  {
  }

  lemma {:induction false} NothingMore(kind: Kind, data: seq<Atom>)
    ensures data == [] ==> PlainCodes(kind, data) == []
  {
  }

  lemma {:induction false} NothingRead(kind: Kind)
    ensures PlainRead(kind, []) == []
  {
  }

  /** The bits that a page of these values may take. */
  function ValueRoom(kind: Kind, data: seq<Atom>): nat {
    |PlainCodes(kind, data)| + IndexRoom(|data|)
  }

  lemma {:induction false} PageFits(e: DictEncoder)
    requires e.Valid() && e.values.Cardinality() < 0x1_0000_0000
    ensures 8 * e.MaxEncodedSize() <= IndexRoom(|e.told|)
  {
    hide FirstOccurrences, DictBuilder.Valid, BitWidth, MinBufferSize, MaxBufferSize;
    Pow2Values();
    BitWidthAtMost(e.values.Cardinality(), 32);
    IndexRoomIsEnough(e.IndexBitWidth(), |e.told|);
  }

  /** Every key takes a byte of the dictionary at least. */
  lemma {:induction false} KeysTakeBytes(kind: Kind, keys: seq<Atom>)
    requires kind.Valid() && AllStorable(kind, keys)
    ensures 8 * |keys| <= |PlainCodes(kind, keys)|
  {
    if keys != [] {
      KeysTakeBytes(kind, keys[1..]);
      assert Storable(kind, keys[0]);
    }
  }

  // ----- Decoder -----

  class ValueDecoder {
    const kind: Kind
    const plain_decoder: PlainDecoder
    var boolean_decoder: BooleanDecoder
    var dict_decoder: DictDecoder?
    var dict: Option<seq<Atom>>
    var encoding: Encoding
    ghost var pending: seq<Atom>  // the values of the page that have not been read
    ghost var Repr: set<object>

    ghost predicate Valid()
      reads this, Repr
    {
      this in Repr && Decoding()
    }

    ghost predicate Decoding()
      reads this, Repr
    {
      && plain_decoder in Repr && plain_decoder.kind == kind && kind.Valid()
      && boolean_decoder in Repr && boolean_decoder.decoder in Repr
      && if IsDictionary(encoding) then
           && dict_decoder != null && dict_decoder in Repr
           && dict_decoder.rle_decoder in Repr && dict_decoder.rle_decoder.bit_reader in Repr
           && dict_decoder.Valid() && NextTell(dict_decoder.dict, dict_decoder.rle_decoder.Pending(), pending)
         else if kind.Boolean? then
           boolean_decoder.decoder.Valid() && ReadsAs(kind, boolean_decoder.decoder.Rest(), pending)
         else ReadsAs(kind, plain_decoder.buffer, pending)
    }

    constructor (kind: Kind)
      requires kind.Valid()
      ensures Valid() && fresh(Repr) && this.kind == kind && dict == None && pending == []
    {
      this.kind := kind;
      plain_decoder := new PlainDecoder(kind);
      boolean_decoder := new BooleanDecoder([], 0);
      dict_decoder, dict, encoding, pending := null, None, PLAIN, [];
      new;
      Repr := {this, plain_decoder, boolean_decoder, boolean_decoder.decoder};
    }

    method ResetDict(keys: seq<Atom>)
      requires Valid()
      modifies `dict
      ensures Valid() && dict == Some(keys)
    {
      dict := Some(keys);
    }

    /** Turn to the values of a page; they must be plain, or there must be a dictionary. */
    method Reset(bits: BitString, size: nat, page_encoding: Encoding, ghost data: seq<Atom>) returns (ok: bool)
      requires Valid() && |bits| == 8 * size && (page_encoding == PLAIN || IsDictionary(page_encoding))
      requires IsDictionary(page_encoding) ==> size > 0
      modifies Repr
      ensures fresh(Repr - old(Repr)) && dict == old(dict)
      ensures (page_encoding == RLE_DICTIONARY || page_encoding == PLAIN_DICTIONARY) && dict == None ==> !ok
      ensures (page_encoding == PLAIN || dict.Some?)
        && Denotes(kind, if dict.Some? then dict.value else [], page_encoding, bits, data)
        ==> ok && Valid() && pending == data
    {
      hide PlainCodes, Storable, Decode, Nat, ReadPlain, RleDecoder.Valid, RleDecoder.Pending, DictDecoder.Valid,
        Tells, BitReader.Valid;
      if page_encoding == PLAIN {
        ResetPlain(bits, size);
      } else {
        if dict.None? {
          return false;
        }
        var d := OpenDictDecoder(dict.value, bits, size);
        if d.None? {
          return false;
        }
        dict_decoder := d.value;
        Repr := Repr + {dict_decoder, dict_decoder.rle_decoder, dict_decoder.rle_decoder.bit_reader};
      }
      encoding := page_encoding;
      pending := data;
      ok := true;
    }

    method ResetPlain(bits: BitString, size: nat)
      requires |bits| == 8 * size && plain_decoder in Repr && this in Repr
      requires boolean_decoder in Repr && boolean_decoder.decoder in Repr
      modifies `boolean_decoder, `Repr, plain_decoder
      ensures fresh(Repr - old(Repr)) && old(Repr) <= Repr && boolean_decoder in Repr && boolean_decoder.decoder in Repr
      ensures if kind.Boolean? then boolean_decoder.decoder.Valid() && boolean_decoder.decoder.Rest() == bits
              else plain_decoder.buffer == bits
    {
      if kind.Boolean? {
        boolean_decoder := new BooleanDecoder(bits, size);
        Repr := Repr + {boolean_decoder, boolean_decoder.decoder};
      } else {
        plain_decoder.Reset(bits);
      }
    }

    /** The next `n` values of the page. */
    method ReadBatch(n: nat) returns (ok: bool, out: seq<Atom>)
      requires Valid() && n <= |pending|
      modifies Repr
      ensures Valid() && Repr == old(Repr) && dict == old(dict)
      ensures ok && out == old(pending)[..n] && pending == old(pending)[n..]
    {
      hide PlainCodes, Storable, Decode, Nat, ReadPlain, BitReader.Valid, RleDecoder.Valid, RleDecoder.Pending;
      if IsDictionary(encoding) {
        NextTellParts(dict_decoder.dict, dict_decoder.rle_decoder.Pending(), pending, n);
        ok, out := dict_decoder.ReadBatch(n);
      } else if kind.Boolean? {
        ReadsInParts(kind, boolean_decoder.decoder.Rest(), pending, n);
        out := boolean_decoder.ReadBatch(n);
        ok := true;
      } else {
        ReadsInParts(kind, plain_decoder.buffer, pending, n);
        ok, out := plain_decoder.ReadBatch(n);
      }
      pending := pending[n..];
    }
  }

  /** The next indices tell the values of `data`. */
  ghost predicate NextTell(keys: seq<Atom>, indices: seq<nat>, data: seq<Atom>) {
    |data| <= |indices| && Tells(keys, indices[..|data|], data)
  }

  lemma {:induction false} NextTellParts(keys: seq<Atom>, indices: seq<nat>, data: seq<Atom>, n: nat)
    requires NextTell(keys, indices, data) && n <= |data|
    ensures NextTell(keys, indices[n..], data[n..])
    ensures !Refused(keys, indices[..n]) && !PastTheEnd(keys, indices[..n])
    ensures forall out :: Tells(keys, indices[..n], out) ==> out == data[..n]
  {
    forall i | 0 <= i < n ensures indices[i] < |keys| && keys[indices[i]] == data[i] {
      assert indices[..|data|][i] == indices[i];
    }
    forall i | n <= i < |data| ensures indices[i] < |keys| && keys[indices[i]] == data[i] {
      assert indices[..|data|][i] == indices[i];
    }
  }
}
