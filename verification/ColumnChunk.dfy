/**
Column chunks: a writer that packs levels and values into pages, a dictionary page in front of
them where there is a dictionary, and a reader that hands the same levels and values out again
in batches.
 */
module ColumnChunks {
  import opened Options
  import opened Formats
  import opened Bits
  import opened Records
  import opened RecordReading
  import opened Rle
  import opened RleEncoding
  import opened PlainCoding
  import opened Dictionaries
  import opened ValueCoding
  import opened LevelCoding

  /** A compressor and its inverse, for contents of a known size in bytes. */
  datatype Codec = Codec(compress: BitString -> BitString, decompress: (BitString, nat) -> BitString)

  ghost predicate Lossless(codec: Codec) {
    forall b: BitString, size: nat :: |b| == 8 * size ==> codec.decompress(codec.compress(b), size) == b
  }

  datatype PageType = DATA_PAGE | DICTIONARY_PAGE | OTHER_PAGE

  /** A page with the fields of its header that matter here. */
  datatype StoredPage = StoredPage(
    page_type: PageType, num_values: nat, encoding: Encoding, uncompressed_size: nat, contents: BitString)

  /** The maxima of a column, what its values are like and how they are compressed. */
  datatype Layout = Layout(def_level: nat, rep_level: nat, kind: Kind, codec: Codec)
  {
    ghost predicate Valid() {
      def_level < 0x1_0000_0000 && rep_level < 0x1_0000_0000 && kind.Valid() && Lossless(codec)
    }
  }

  /** The uncompressed contents of a data page: repetition levels, definition levels, values. */
  ghost predicate Contents(raw: BitString, l: Layout, keys: seq<Atom>, encoding: Encoding, p: Page) {
    var w, v := BitWidth(l.rep_level), BitWidth(l.def_level);
    && InRange(p, l.def_level, l.rep_level)
    && HoldsLevels(raw, w, p.reps) && 8 * LevelBytes(raw, w) <= |raw|
    && var after := raw[8 * LevelBytes(raw, w)..];
    && HoldsLevels(after, v, p.defs) && 8 * LevelBytes(after, v) <= |after|
    && Denotes(l.kind, keys, encoding, after[8 * LevelBytes(after, v)..], p.values)
  }

  /** A stored data page holds the levels and values `p`. */
  ghost predicate Holds(s: StoredPage, l: Layout, keys: seq<Atom>, p: Page) {
    && s.page_type == DATA_PAGE && s.num_values == |p.defs|
    && var raw := l.codec.decompress(s.contents, s.uncompressed_size);
    && |raw| == 8 * s.uncompressed_size && Contents(raw, l, keys, s.encoding, p)
  }

  /** A stored dictionary page holds these keys, for its reader. */
  ghost predicate HoldsKeys(s: StoredPage, l: Layout, keys: seq<Atom>) {
    && s.page_type == DICTIONARY_PAGE && s.num_values == |keys|
    && var raw := l.codec.decompress(s.contents, s.uncompressed_size);
    && |raw| == 8 * s.uncompressed_size && ReadsAs(l.kind, raw, keys)
  }

  /** The pages of a chunk, from some page on, hold the levels and values `ps`, page by page;
      `dict` is the dictionary met so far. Pages of other types are passed over. */
  ghost predicate HoldsAll(pages: seq<StoredPage>, l: Layout, dict: Option<seq<Atom>>, ps: seq<Page>)
    decreases |pages|
  {
    if pages == [] then ps == []
    else
      match pages[0].page_type
      case DATA_PAGE =>
        && ps != [] && (IsDictionary(pages[0].encoding) ==> dict.Some?)
        && Holds(pages[0], l, if dict.Some? then dict.value else [], ps[0])
        && HoldsAll(pages[1..], l, dict, ps[1..])
      case DICTIONARY_PAGE =>
        exists keys :: HoldsKeys(pages[0], l, keys) && HoldsAll(pages[1..], l, Some(keys), ps)
      case OTHER_PAGE => HoldsAll(pages[1..], l, dict, ps)
  }

  lemma {:induction false} HoldsLater(s: StoredPage, l: Layout, keys: seq<Atom>, later: seq<Atom>, p: Page)
    requires Holds(s, l, keys, p) && keys <= later
    ensures Holds(s, l, later, p)
  {
    hide HoldsLevels, LevelBytes, Denotes, InRange;
    var w, v := BitWidth(l.rep_level), BitWidth(l.def_level);
    var raw := l.codec.decompress(s.contents, s.uncompressed_size);
    var after := raw[8 * LevelBytes(raw, w)..];
    DenotesLater(l.kind, keys, later, s.encoding, after[8 * LevelBytes(after, v)..], p.values);
  }

  /** The encodings of the data pages, in order. */
  function DataEncodings(pages: seq<StoredPage>): seq<Encoding> {
    if pages == [] then []
    else
      var front, p := DataEncodings(pages[..|pages| - 1]), pages[|pages| - 1];
      if p.page_type == DATA_PAGE then front + [p.encoding] else front
  }

  lemma {:induction false} DataEncodingsBoth(a: seq<StoredPage>, b: seq<StoredPage>)
    ensures DataEncodings(a + b) == DataEncodings(a) + DataEncodings(b)
    decreases |b|
  {
    if b == [] {
      assert a + b == a;
    } else {
      var front, p := b[..|b| - 1], b[|b| - 1];
      assert (a + b)[..|a + b| - 1] == a + front;
      DataEncodingsBoth(a, front);
      Associate(DataEncodings(a), DataEncodings(front), [p.encoding]);
    }
  }

  lemma {:induction false} OneDataEncoding(p: StoredPage)
    ensures DataEncodings([p]) == if p.page_type == DATA_PAGE then [p.encoding] else []
    ensures DataEncodings([]) == []
  {
    assert [p][..0] == [];
  }

  /** The encoding of the next page. */
  function EncodingIn(c: Coder): Encoding {
    if c.fallen_back then PLAIN else RLE_DICTIONARY
  }

  /** There is a plain dictionary page in front if the column has a dictionary, and no other one. */
  predicate InFrontOnly(chunk: seq<StoredPage>, dictionary: bool) {
    && (dictionary ==> chunk != [] && chunk[0].page_type == DICTIONARY_PAGE && chunk[0].encoding == PLAIN)
    && forall i :: (if dictionary then 1 else 0) <= i < |chunk| ==> chunk[i].page_type == DATA_PAGE
  }

  /** The size of the page fits the header field. */
  predicate Small(s: StoredPage) {
    s.uncompressed_size < 0x8000_0000
  }

  predicate AllSmall(pages: seq<StoredPage>) {
    forall i :: 0 <= i < |pages| ==> Small(pages[i])
  }

  const PAGE_LIMIT := 8 * 0x8000_0000

  /** The bits that a page of these levels and values may take before it is compressed. */
  function PageRoom(kind: Kind, p: Page): nat {
    2 * LevelRoom(|p.defs|) + ValueRoom(kind, p.values)
  }

  predicate RoomWithin(kind: Kind, ps: seq<Page>, bits: nat) {
    forall i :: 0 <= i < |ps| ==> PageRoom(kind, ps[i]) <= bits
  }

  predicate PagesWithin(pages: seq<StoredPage>, bits: nat) {
    forall i :: 0 <= i < |pages| ==> 8 * pages[i].uncompressed_size <= bits
  }

  lemma {:induction false} WithinIsSmall(pages: seq<StoredPage>, bits: nat)
    requires PagesWithin(pages, bits) && bits < PAGE_LIMIT
    ensures AllSmall(pages)
  {
  }

  lemma {:induction false} WithinMore(pages: seq<StoredPage>, bits: nat, more: nat)
    requires PagesWithin(pages, bits) && bits <= more
    ensures PagesWithin(pages, more)
  {
  }

  /** The number of values fits the header if the size does, and the contents are something compressed. */
  ghost predicate Formed(s: StoredPage, l: Layout) {
    && (Small(s) ==> s.num_values < 0x8000_0000)
    && exists raw :: |raw| == 8 * s.uncompressed_size && s.contents == l.codec.compress(raw)
  }

  ghost predicate AllFormed(pages: seq<StoredPage>, l: Layout) {
    forall i :: 0 <= i < |pages| ==> Formed(pages[i], l)
  }

  /** The data pages written so far, each with what it holds, and within its room. */
  ghost predicate HoldEach(pages: seq<StoredPage>, l: Layout, keys: seq<Atom>, dictionary: bool, ps: seq<Page>) {
    && |pages| == |ps|
    && forall i :: 0 <= i < |pages| ==>
      && pages[i].page_type == DATA_PAGE && (IsDictionary(pages[i].encoding) ==> dictionary)
      && 8 * pages[i].uncompressed_size <= PageRoom(l.kind, ps[i]) && Formed(pages[i], l)
      && (Small(pages[i]) ==> Holds(pages[i], l, keys, ps[i]))
  }

  lemma {:induction false} PagesInRoom(
    pages: seq<StoredPage>, l: Layout, keys: seq<Atom>, dictionary: bool, ps: seq<Page>, bits: nat)
    requires HoldEach(pages, l, keys, dictionary, ps)
    ensures AllFormed(pages, l) && (RoomWithin(l.kind, ps, bits) ==> PagesWithin(pages, bits))
  {
    hide Holds, PageRoom, Formed;
  }

  lemma {:induction false} HoldEachLater(
    pages: seq<StoredPage>, l: Layout, keys: seq<Atom>, later: seq<Atom>, dictionary: bool, ps: seq<Page>)
    requires HoldEach(pages, l, keys, dictionary, ps) && keys <= later
    ensures HoldEach(pages, l, later, dictionary, ps)
  {
    hide Holds, Formed;
    forall i | 0 <= i < |pages| && Small(pages[i]) ensures Holds(pages[i], l, later, ps[i]) {
      HoldsLater(pages[i], l, keys, later, ps[i]);
    }
  }

  /** Behind its dictionary page, a chunk of such pages can be read. */
  lemma {:induction false} PagesAreChunk(
    pages: seq<StoredPage>, l: Layout, keys: seq<Atom>, dict: Option<seq<Atom>>, ps: seq<Page>)
    requires AllSmall(pages) && HoldEach(pages, l, keys, dict.Some?, ps) && (dict.Some? ==> dict.value == keys) && (dict.None? ==> keys == [])
    ensures HoldsAll(pages, l, dict, ps)
    decreases |pages|
  {
    hide Holds, Formed;
    if pages != [] {
      assert HoldEach(pages[1..], l, keys, dict.Some?, ps[1..]);
      PagesAreChunk(pages[1..], l, keys, dict, ps[1..]);
      assert Small(pages[0]) && Holds(pages[0], l, keys, ps[0]);
    }
  }

  // ----- Writer -----

  /** The levels and values of one more `put`: levels whose maximum is 0 are not stored, and
      values only at the maximum definition level. */
  function PutOn(p: Page, l: Layout, def: nat, rep: nat, val: Atom): Page {
    var d := if l.def_level == 0 then 0 else def;
    Page(p.defs + [d], p.reps + [if l.rep_level == 0 then 0 else rep], if d == l.def_level then p.values + [val] else p.values)
  }

  lemma {:induction false} PutOnInRange(p: Page, l: Layout, def: nat, rep: nat, val: Atom)
    requires InRange(p, l.def_level, l.rep_level) && def <= l.def_level && rep <= l.rep_level
    ensures InRange(PutOn(p, l, def, rep, val), l.def_level, l.rep_level)
    ensures PageTriplets(PutOn(p, l, def, rep, val), l.def_level)
      == PageTriplets(p, l.def_level) + [Triplet(def, rep, if def == l.def_level then Some(val) else None)]
  {
    hide Triplets, CountMax;
    var q := PutOn(p, l, def, rep, val);
    var n := |p.defs|;
    CountSplit(q.defs, n, l.def_level);
    assert q.defs[..n] == p.defs && q.defs[n..] == [def] && q.reps[..n] == p.reps && q.reps[n..] == [rep];
    OneTriplet(def, rep, val, l.def_level);
    TripletsSplit(q.defs, q.reps, q.values, l.def_level, n, |p.values|);
    assert q.values[..|p.values|] == p.values;
    assert q.values[|p.values|..] == if def == l.def_level then [val] else [];
  }

  lemma {:induction false} OneTriplet(def: nat, rep: nat, val: Atom, max: nat)
    ensures CountMax([def], max) == if def == max then 1 else 0
    ensures Triplets([def], [rep], if def == max then [val] else [], max)
      == [Triplet(def, rep, if def == max then Some(val) else None)]
  {
    assert [def][1..] == [];
  }

  /** The levels at the start of a page: nothing for the maximum 0, else their part. */
  ghost predicate IsPart(part: BitString, max: nat, levels: seq<nat>) {
    if max == 0 then part == [] && forall i :: 0 <= i < |levels| ==> levels[i] == 0
    else IsLevelPart(part, BitWidth(max), levels)
  }

  lemma {:induction false} PartHolds(part: BitString, max: nat, levels: seq<nat>, rest: BitString)
    requires IsPart(part, max, levels) && |part| < 8 * 0x8000_0000
    ensures HoldsLevels(part + rest, BitWidth(max), levels) && 8 * LevelBytes(part + rest, BitWidth(max)) == |part|
  {
    hide IsLevelPart, HoldsLevels, LevelBytes;
    if max == 0 {
      ZeroLevels(part + rest, levels);
    } else {
      LevelPartHolds(part, BitWidth(max), levels, rest);
    }
  }

  lemma {:induction false} ZeroLevels(bits: BitString, levels: seq<nat>)
    requires forall i :: 0 <= i < |levels| ==> levels[i] == 0
    ensures HoldsLevels(bits, 0, levels) && LevelBytes(bits, 0) == 0
  {
  }

  lemma {:induction false} ContentsOf(
    reps: BitString, defs: BitString, view: BitString, l: Layout, keys: seq<Atom>, encoding: Encoding, p: Page)
    requires InRange(p, l.def_level, l.rep_level) && |reps + defs + view| < 8 * 0x8000_0000
    requires IsPart(reps, l.rep_level, p.reps) && IsPart(defs, l.def_level, p.defs)
    requires Denotes(l.kind, keys, encoding, view, p.values)
    ensures Contents(reps + defs + view, l, keys, encoding, p)
  {
    hide HoldsLevels, LevelBytes, IsPart, Denotes, InRange, BitWidth;
    Associate(reps, defs, view);
    PartHolds(reps, l.rep_level, p.reps, defs + view);
    PartHolds(defs, l.def_level, p.defs, view);
    Parts(reps, defs + view);
    Parts(defs, view);
  }

  /** The levels of one more triplet make no run too long if the page with it fits. */
  lemma {:induction false} LevelsFit(p: Page, l: Layout, def: nat, rep: nat, val: Atom, indices: seq<nat>)
    requires Countable(l, PutOn(p, l, def, rep, val), indices)
    ensures l.def_level > 0 ==> Trailing(p.defs, def) < MAX_REPEAT
    ensures l.rep_level > 0 ==> Trailing(p.reps, rep) < MAX_REPEAT
  {
    hide RunsFit, Trailing;
    RunsFitBefore(p.defs, def);
    RunsFitBefore(p.reps, rep);
  }

  lemma {:induction false} EmptyInRange(l: Layout)
    ensures InRange(EMPTY_PAGE, l.def_level, l.rep_level)
  {
  }

  lemma {:induction false} FewValues(p: Page, l: Layout)
    requires InRange(p, l.def_level, l.rep_level)
    ensures |p.values| <= |p.defs|
  {
  }

  lemma {:induction false} PartBytes(part: BitString, max: nat, levels: seq<nat>) returns (size: nat)
    requires IsPart(part, max, levels)
    ensures |part| == 8 * size
  {
    size := |part| / 8;
  }

  lemma {:induction false} PageHolds(
    reps: BitString, defs: BitString, view: BitString, size: nat, l: Layout, keys: seq<Atom>, encoding: Encoding, p: Page,
    s: StoredPage)
    requires l.Valid() && InRange(p, l.def_level, l.rep_level) && |view| == 8 * size
    requires IsPart(reps, l.rep_level, p.reps) && IsPart(defs, l.def_level, p.defs)
    requires Denotes(l.kind, keys, encoding, view, p.values)
    requires var raw := reps + defs + view; s == StoredPage(DATA_PAGE, |p.defs|, encoding, |raw| / 8, l.codec.compress(raw))
    requires |p.defs| < 0x8000_0000
    ensures Formed(s, l) && (Small(s) ==> Holds(s, l, keys, p))
  {
    hide Contents, IsPart, Denotes, InRange;
    var raw := reps + defs + view;
    var a := PartBytes(reps, l.rep_level, p.reps);
    var b := PartBytes(defs, l.def_level, p.defs);
    assert |raw| == 8 * (a + b + size) == 8 * s.uncompressed_size;
    if Small(s) {
      ContentsOf(reps, defs, view, l, keys, encoding, p);
    }
  }

  lemma {:induction false} OneMorePage(
    pages: seq<StoredPage>, l: Layout, keys: seq<Atom>, dictionary: bool, ps: seq<Page>, s: StoredPage, p: Page)
    requires HoldEach(pages, l, keys, dictionary, ps) && (Small(s) ==> Holds(s, l, keys, p))
    requires s.page_type == DATA_PAGE && (IsDictionary(s.encoding) ==> dictionary)
    requires 8 * s.uncompressed_size <= PageRoom(l.kind, p) && Formed(s, l)
    ensures HoldEach(pages + [s], l, keys, dictionary, ps + [p])
  {
    hide Holds, PageRoom, Formed;
  }

  /** The most triplets that the header of a page can count. */
  const MOST_VALUES := 0x7FFF_FFFF

  /** A page whose header can count its triplets, and in which no level and no index comes 2^30
      times in a row; levels whose maximum is 0 are not stored. */
  predicate Countable(l: Layout, p: Page, indices: seq<nat>) {
    && |p.defs| <= MOST_VALUES && RunsFit(indices)
    && (l.def_level > 0 ==> RunsFit(p.defs)) && (l.rep_level > 0 ==> RunsFit(p.reps))
  }

  lemma {:induction false} EmptyIsCountable(l: Layout)
    ensures Countable(l, EMPTY_PAGE, [])
  {
  }

  /** So many keys a dictionary has at most: those up to the threshold and those of one page. */
  const MOST_KEYS := FALLBACK_THRESHOLD + MOST_VALUES

  const EMPTY_PAGE := Page([], [], [])

  class ColumnChunkWriter {
    const layout: Layout
    const rep_encoder: LevelEncoder
    const def_encoder: LevelEncoder
    const val_encoder: ValueEncoder
    var pages: seq<StoredPage>
    var levels_in_current_page: nat
    var rows_written: nat
    ghost var current: Page       // what has been put since the last page
    ghost var written: seq<Page>  // what the pages since the last chunk hold

    ghost function ValRepr(): set<object> {
      {val_encoder, val_encoder.dict_encoder, val_encoder.dict_encoder.values, val_encoder.plain_encoder}
    }

    ghost function Repr(): set<object>
      reads rep_encoder, def_encoder
    {
      {this} + rep_encoder.Repr + def_encoder.Repr + ValRepr()
    }

    /** The encoders hold what has been put on the current page. */
    ghost predicate Current()
      reads this, rep_encoder, def_encoder, val_encoder
    {
      && InRange(current, layout.def_level, layout.rep_level)
      && |current.reps| == |current.defs| == levels_in_current_page
      && rep_encoder.bit_width == BitWidth(layout.rep_level) && def_encoder.bit_width == BitWidth(layout.def_level)
      && rep_encoder.levels == (if layout.rep_level > 0 then current.reps else [])
      && def_encoder.levels == (if layout.def_level > 0 then current.defs else [])
      && val_encoder.told == current.values && val_encoder.kind == layout.kind
    }

    /** The dictionary is not too large for 32-bit indices. */
    ghost predicate Bounded()
      reads val_encoder, val_encoder.dict_encoder, val_encoder.dict_encoder.values
    {
      var keys := |val_encoder.Keys()|;
      if val_encoder.fallen_back then keys <= MOST_KEYS else keys <= FALLBACK_THRESHOLD + |val_encoder.pending|
    }

    ghost predicate Valid()
      reads rep_encoder, def_encoder, Repr()
    {
      && Apart() && rep_encoder.Valid() && def_encoder.Valid() && val_encoder.Valid() && Current() && Bounded()
      && Countable(layout, current, val_encoder.State().indices)
      && HoldEach(pages, layout, val_encoder.ReadKeys(), val_encoder.dictionary, written)
    }

    constructor (layout: Layout, encoding: Encoding)
      requires layout.Valid() && Codable(encoding)
      ensures Valid() && fresh(Repr()) && this.layout == layout
      ensures written == [] && current == EMPTY_PAGE && pages == []
      ensures levels_in_current_page == 0 && val_encoder.State() == NewCoder(layout.kind, encoding) && val_encoder.DictBits() == 0
      ensures (val_encoder.dictionary <==> encoding == RLE_DICTIONARY) && rows_written == 0
    {
      hide LevelEncoder.Encoding, ValueEncoder.Valid, BitWidth, Holds, Lossless, PlainRead, Countable;
      EmptyIsCountable(layout);
      this.layout := layout;
      var rep, def := LevelEncoders(layout);
      rep_encoder, def_encoder := rep, def;
      val_encoder := new ValueEncoder(layout.kind, encoding);
      pages, levels_in_current_page, rows_written, current, written := [], 0, 0, EMPTY_PAGE, [];
    }

    static method LevelEncoders(layout: Layout) returns (rep: LevelEncoder, def: LevelEncoder)
      requires layout.Valid()
      ensures rep.Valid() && def.Valid() && rep.levels == [] && def.levels == []
      ensures rep.bit_width == BitWidth(layout.rep_level) && def.bit_width == BitWidth(layout.def_level)
      ensures fresh(rep.Repr) && fresh(def.Repr) && rep.Repr !! def.Repr
    {
      hide LevelEncoder.Encoding, BitWidth, Lossless;
      rep := new LevelEncoder(layout.rep_level);
      def := new LevelEncoder(layout.def_level);
    }

    /** What stays as it is while the encoders take up a triplet or hand out a page. */
    ghost predicate Apart()
      reads rep_encoder, def_encoder
    {
      && layout.Valid() && rep_encoder in rep_encoder.Repr && def_encoder in def_encoder.Repr
      && rep_encoder.Repr !! def_encoder.Repr && rep_encoder.Repr !! ValRepr() && def_encoder.Repr !! ValRepr()
      && this !in rep_encoder.Repr && this !in def_encoder.Repr && this !in ValRepr()
    }

    /** One more triplet; the value counts only at the maximum definition level. The page will hold
        what a reader gets for it. A triplet with a repetition level of 0 starts a row. */
    method Put(def: nat, rep: nat, val: Atom)
      requires Valid() && def <= layout.def_level && rep <= layout.rep_level
      requires def == layout.def_level ==> Storable(layout.kind, val)
      requires var c := val_encoder.State();
        Countable(layout, PutOn(current, layout, def, rep, c.Read(val)), (if def == layout.def_level then c.Put(val) else c).indices)
      modifies Repr()
      ensures Valid() && fresh(Repr() - old(Repr()))
      ensures current == PutOn(old(current), layout, def, rep, old(val_encoder.State()).Read(val))
      ensures val_encoder.State() == if def == layout.def_level then old(val_encoder.State()).Put(val) else old(val_encoder.State())
      ensures levels_in_current_page == old(levels_in_current_page) + 1
      ensures rows_written == old(rows_written) + (if rep == 0 then 1 else 0)
      ensures pages == old(pages) && written == old(written)
      ensures val_encoder.DictBits()
        <= old(val_encoder.DictBits()) + (if def == layout.def_level then |Code(layout.kind, val)| else 0)
    {
      hide LevelEncoder.Encoding, ValueEncoder.Valid, BitWidth, Storable, InRange, Pow2, HoldEach, Layout.Valid, Code, PutOn,
        Coder.Put, Coder.Read, PlainRead, Countable, ColumnChunkWriter.Bounded;
      ghost var c := val_encoder.State();
      LevelsFit(current, layout, def, rep, c.Read(val), (if def == layout.def_level then c.Put(val) else c).indices);
      PutLevels(def, rep);
      CountRow(rep);
      ghost var keys, read := val_encoder.ReadKeys(), c.Read(val);
      if layout.def_level == 0 || def == layout.def_level {
        PutValue(val);
      }
      HoldEachLater(pages, layout, keys, val_encoder.ReadKeys(), val_encoder.dictionary, written);
      CountTriplet(def, rep, read);
    }

    method CountRow(rep: nat)
      requires rep <= layout.rep_level
      modifies `rows_written
      ensures rows_written == old(rows_written) + (if rep == 0 then 1 else 0)
    {
      if layout.rep_level == 0 || rep == 0 {
        rows_written := rows_written + 1;
      }
    }

    /** The encoders have taken up one triplet more. */
    method CountTriplet(def: nat, rep: nat, ghost read: Atom)
      requires Apart() && rep_encoder.Valid() && def_encoder.Valid() && val_encoder.Valid() && Bounded()
      requires HoldEach(pages, layout, val_encoder.ReadKeys(), val_encoder.dictionary, written)
      requires InRange(current, layout.def_level, layout.rep_level) && def <= layout.def_level && rep <= layout.rep_level
      requires |current.reps| == |current.defs| == levels_in_current_page
      requires Countable(layout, PutOn(current, layout, def, rep, read), val_encoder.State().indices)
      requires rep_encoder.bit_width == BitWidth(layout.rep_level) && def_encoder.bit_width == BitWidth(layout.def_level)
      requires rep_encoder.levels == (if layout.rep_level > 0 then current.reps + [rep] else [])
      requires def_encoder.levels == (if layout.def_level > 0 then current.defs + [def] else [])
      requires val_encoder.told == (if def == layout.def_level then current.values + [read] else current.values)
      requires val_encoder.kind == layout.kind
      modifies `levels_in_current_page, `current
      ensures Valid() && current == PutOn(old(current), layout, def, rep, read)
      ensures levels_in_current_page == old(levels_in_current_page) + 1
    {
      hide LevelEncoder.Encoding, ValueEncoder.Valid, BitWidth, InRange, PageTriplets, HoldEach, Layout.Valid, PlainRead,
        Countable, ColumnChunkWriter.Bounded;
      levels_in_current_page := levels_in_current_page + 1;
      PutOnInRange(current, layout, def, rep, read);
      current := PutOn(current, layout, def, rep, read);
    }

    method PutValue(val: Atom)
      requires val_encoder.Valid() && val_encoder.kind == layout.kind && Storable(layout.kind, val) && Bounded()
      modifies ValRepr()
      ensures val_encoder.Valid() && Bounded() && val_encoder.State() == old(val_encoder.State()).Put(val)
      ensures val_encoder.told == old(val_encoder.told) + [old(val_encoder.State()).Read(val)]
      ensures val_encoder.DictBits() <= old(val_encoder.DictBits()) + |Code(layout.kind, val)|
      ensures old(val_encoder.ReadKeys()) <= val_encoder.ReadKeys()
    {
      hide ValueEncoder.Valid, Storable, Code, PlainRead, Place, Coder.Read;
      OneCode(layout.kind, val);
      val_encoder.State().JustOne(val);
      val_encoder.PutBatch([val]);
      PlainReadGrows(layout.kind, old(val_encoder.Keys()), val_encoder.Keys());
    }

    method PutLevels(def: nat, rep: nat)
      requires Apart() && rep_encoder.Valid() && def_encoder.Valid()
      requires rep_encoder.bit_width == BitWidth(layout.rep_level) && def_encoder.bit_width == BitWidth(layout.def_level)
      requires layout.rep_level > 0 ==> Trailing(rep_encoder.levels, rep) < MAX_REPEAT
      requires layout.def_level > 0 ==> Trailing(def_encoder.levels, def) < MAX_REPEAT
      requires def <= layout.def_level && rep <= layout.rep_level
      modifies rep_encoder.Repr, def_encoder.Repr
      ensures Apart() && rep_encoder.Valid() && def_encoder.Valid()
      ensures fresh(rep_encoder.Repr - old(rep_encoder.Repr)) && fresh(def_encoder.Repr - old(def_encoder.Repr))
      ensures rep_encoder.levels == old(rep_encoder.levels) + (if layout.rep_level > 0 then [rep] else [])
      ensures def_encoder.levels == old(def_encoder.levels) + (if layout.def_level > 0 then [def] else [])
    {
      hide LevelEncoder.Encoding, BitWidth, Pow2, Layout.Valid, Trailing;
      if layout.rep_level > 0 {
        rep_encoder.Put(rep);
      }
      if layout.def_level > 0 {
        def_encoder.Put(def);
      }
    }

    /** Pack what has been put since the last page into a page. */
    method FlushPage()
      requires Valid()
      modifies Repr()
      ensures Valid() && fresh(Repr() - old(Repr()))
      ensures current == EMPTY_PAGE && written == old(written) + [old(current)] && levels_in_current_page == 0
      ensures rows_written == old(rows_written)
      ensures DataEncodings(pages) == DataEncodings(old(pages)) + [EncodingIn(old(val_encoder.State()))]
      ensures val_encoder.State() == old(val_encoder.State()).Flush() && val_encoder.DictBits() == old(val_encoder.DictBits())
    {
      hide Coder.Flush, RunsFit, PlainRead, LevelEncoder.Encoding, ValueEncoder.Valid, BitWidth, Holds, Lossless,
        Contents, Storable, InRange, Denotes, IsPart, HoldEach, LevelRoom, ValueRoom;
      EmptyIsCountable(layout);
      var reps, defs := FlushLevels();
      FewValues(current, layout);
      EmptyInRange(layout);
      var view, size, encoding := FlushValues();
      StorePage(reps, defs, view, size, encoding);
    }

    /** The bytes of the values of a page. */
    method FlushValues() returns (view: BitString, size: nat, encoding: Encoding)
      requires val_encoder.Valid() && Bounded() && |val_encoder.told| <= MOST_VALUES && RunsFit(val_encoder.State().indices)
      modifies ValRepr()
      ensures val_encoder.Valid() && Bounded() && val_encoder.told == [] && val_encoder.State().indices == [] && |view| == 8 * size
      ensures val_encoder.State() == old(val_encoder.State()).Flush() && val_encoder.DictBits() == old(val_encoder.DictBits())
      ensures val_encoder.ReadKeys() == old(val_encoder.ReadKeys())
      ensures |view| <= ValueRoom(val_encoder.kind, old(val_encoder.told))
      ensures Denotes(val_encoder.kind, val_encoder.ReadKeys(), encoding, view, old(val_encoder.told))
      ensures encoding == EncodingIn(old(val_encoder.State()))
      ensures IsDictionary(encoding) ==> val_encoder.dictionary
    {
      hide Denotes, ValueRoom, PlainRead, PlainCodes, RunsFit, FirstOccurrences;
      SizeOfDictionary();
      view, size, encoding := val_encoder.Flush();
    }

    lemma {:induction false} SizeOfDictionary()
      requires val_encoder.Valid()
      ensures val_encoder.DictBits() == |PlainCodes(val_encoder.kind, val_encoder.Keys())| >= 8 * |val_encoder.Keys()|
    {
      KeysTakeBytes(val_encoder.kind, val_encoder.Keys());
    }

    method StorePage(reps: BitString, defs: BitString, view: BitString, size: nat, encoding: Encoding)
      requires layout.Valid() && InRange(current, layout.def_level, layout.rep_level) && |view| == 8 * size
      requires IsPart(reps, layout.rep_level, current.reps) && IsPart(defs, layout.def_level, current.defs)
      requires Denotes(layout.kind, val_encoder.ReadKeys(), encoding, view, current.values)
      requires |reps| + |defs| + |view| <= PageRoom(layout.kind, current)
      requires |current.defs| == levels_in_current_page <= MOST_VALUES && (IsDictionary(encoding) ==> val_encoder.dictionary)
      requires HoldEach(pages, layout, val_encoder.ReadKeys(), val_encoder.dictionary, written)
      modifies `pages, `levels_in_current_page, `current, `written
      ensures current == EMPTY_PAGE && levels_in_current_page == 0
      ensures written == old(written) + [old(current)] && DataEncodings(pages) == DataEncodings(old(pages)) + [encoding]
      ensures HoldEach(pages, layout, val_encoder.ReadKeys(), val_encoder.dictionary, written)
    {
      hide Holds, Lossless, Contents, InRange, Denotes, IsPart, HoldEach, PageRoom, Formed, DataEncodings;
      var raw := reps + defs + view;
      var page := StoredPage(DATA_PAGE, levels_in_current_page, encoding, |raw| / 8, layout.codec.compress(raw));
      PageHolds(reps, defs, view, size, layout, val_encoder.ReadKeys(), encoding, current, page);
      OneMorePage(pages, layout, val_encoder.ReadKeys(), val_encoder.dictionary, written, page, current);
      DataEncodingsBoth(pages, [page]);
      OneDataEncoding(page);
      pages := pages + [page];
      written := written + [current];
      levels_in_current_page := 0;
      current := EMPTY_PAGE;
    }

    /** The bytes of the levels of a page. */
    method FlushLevels() returns (reps: BitString, defs: BitString)
      requires Apart() && rep_encoder.Valid() && def_encoder.Valid() && Current()
      requires Countable(layout, current, val_encoder.State().indices)
      modifies rep_encoder.Repr, def_encoder.Repr
      ensures Apart() && rep_encoder.Valid() && def_encoder.Valid()
      ensures fresh(rep_encoder.Repr - old(rep_encoder.Repr)) && fresh(def_encoder.Repr - old(def_encoder.Repr))
      ensures rep_encoder.levels == [] && def_encoder.levels == []
      ensures IsPart(reps, layout.rep_level, current.reps) && IsPart(defs, layout.def_level, current.defs)
      ensures |reps| <= LevelRoom(|current.defs|) && |defs| <= LevelRoom(|current.defs|)
    {
      hide LevelEncoder.Encoding, Pow2, Layout.Valid, IsLevelPart, RunsFit;
      reps := rep_encoder.Flush();
      defs := def_encoder.Flush();
    }

    /** Hand out the pages of a chunk: those written so far and one more for what is left, behind
        the dictionary if there is one. Below 2^31 bytes a page they can be read back. Rows are
        counted on from chunk to chunk. */
    method FlushChunk(ghost bits: nat) returns (chunk: seq<StoredPage>, ghost held: seq<Page>)
      requires Valid()
      modifies Repr()
      ensures Valid() && fresh(Repr() - old(Repr()))
      ensures pages == [] && written == [] && current == EMPTY_PAGE && levels_in_current_page == 0
      ensures rows_written == old(rows_written)
      ensures val_encoder.State() == old(val_encoder.State()).Flush() && val_encoder.DictBits() == old(val_encoder.DictBits())
      ensures held == old(written) + (if old(current.defs) == [] then [] else [old(current)])
      ensures AllSmall(chunk) ==> HoldsAll(chunk, layout, None, held)
      ensures val_encoder.DictBits() <= bits && RoomWithin(layout.kind, held, bits) ==> PagesWithin(chunk, bits)
      ensures AllFormed(chunk, layout) && InFrontOnly(chunk, val_encoder.dictionary)
      ensures DataEncodings(chunk) ==
        DataEncodings(old(pages)) + (if old(current.defs) == [] then [] else [EncodingIn(old(val_encoder.State()))])
    {
      hide LevelEncoder.Encoding, ValueEncoder.Valid, BitWidth, Holds, Lossless, Contents, Storable, Denotes, IsPart,
        DataEncodings, HoldEach, HoldsAll, RoomWithin, Formed, Coder.Flush, PlainRead, Countable, InRange, ColumnChunkWriter.Bounded;
      if levels_in_current_page > 0 {
        FlushPage();
      } else {
        NothingToFlush();
      }
      var dict := DictionaryPage();
      ChunkHolds(dict, pages, layout, val_encoder.ReadKeys(), val_encoder.dictionary, written, bits);
      DictionaryInFront(dict, pages, layout, val_encoder.ReadKeys(), val_encoder.dictionary, written);
      chunk := dict + pages;
      held := written;
      ForgetPages();
    }

    /** The pages have been handed out. */
    method ForgetPages()
      requires Valid()
      modifies `pages, `written
      ensures Valid() && pages == [] && written == []
    {
      hide LevelEncoder.Encoding, ValueEncoder.Valid, BitWidth, Lossless, InRange, HoldEach, PlainRead, Countable,
        ColumnChunkWriter.Bounded;
      NoPages(layout, val_encoder.ReadKeys(), val_encoder.dictionary);
      pages, written := [], [];
    }

    /** A page without levels would change nothing. */
    lemma {:induction false} NothingToFlush()
      requires Valid() && levels_in_current_page == 0
      ensures val_encoder.State() == val_encoder.State().Flush() && current == EMPTY_PAGE
    {
      hide LevelEncoder.Encoding, HoldEach, PlainCodes;
      SizeOfDictionary();
    }

    /** The dictionary page, if there is one. */
    method DictionaryPage() returns (page: seq<StoredPage>)
      requires Valid()
      ensures IsDictionaryPage(page, layout, val_encoder.ReadKeys(), val_encoder.dictionary)
      ensures !val_encoder.dictionary ==> val_encoder.ReadKeys() == []
      ensures PagesWithin(page, val_encoder.DictBits()) && AllFormed(page, layout)
    {
      hide PlainCodes, Storable, ReadPlain, BitOf, ValueEncoder.Valid, LevelEncoder.Encoding, HoldEach;
      var view, cardinality := val_encoder.ViewDict();
      if view.None? {
        return [];
      }
      ghost var size := PlainBytes(layout.kind, val_encoder.Keys());
      PlainCodesRead(layout.kind, val_encoder.Keys());
      KeysTakeBytes(layout.kind, val_encoder.Keys());
      assert |view.value| == 8 * (|view.value| / 8);
      return [StoredPage(DICTIONARY_PAGE, cardinality, PLAIN, |view.value| / 8, layout.codec.compress(view.value))];
    }
  }

  ghost predicate IsDictionaryPage(page: seq<StoredPage>, l: Layout, keys: seq<Atom>, dictionary: bool) {
    if dictionary then |page| == 1 && page[0].encoding == PLAIN && HoldsKeys(page[0], l, keys) else page == []
  }

  lemma {:induction false} DictionaryInFront(
    dict: seq<StoredPage>, pages: seq<StoredPage>, l: Layout, keys: seq<Atom>, dictionary: bool, ps: seq<Page>)
    requires IsDictionaryPage(dict, l, keys, dictionary) && HoldEach(pages, l, keys, dictionary, ps)
    ensures InFrontOnly(dict + pages, dictionary) && DataEncodings(dict + pages) == DataEncodings(pages)
  {
    hide Holds, Formed;
    DataEncodingsBoth(dict, pages);
    if dictionary {
      OneDataEncoding(dict[0]);
      assert dict == [dict[0]];
    }
    assert [] + DataEncodings(pages) == DataEncodings(pages);
  }

  lemma {:induction false} NoPages(l: Layout, keys: seq<Atom>, dictionary: bool)
    ensures HoldEach([], l, keys, dictionary, [])
  {
  }

  lemma {:induction false} ChunkHolds(
    dict: seq<StoredPage>, pages: seq<StoredPage>, l: Layout, keys: seq<Atom>, dictionary: bool, ps: seq<Page>, bits: nat)
    requires IsDictionaryPage(dict, l, keys, dictionary) && HoldEach(pages, l, keys, dictionary, ps)
    requires (dictionary || keys == []) && AllFormed(dict, l)
    ensures AllSmall(dict + pages) ==> HoldsAll(dict + pages, l, None, ps)
    ensures PagesWithin(dict, bits) && RoomWithin(l.kind, ps, bits) ==> PagesWithin(dict + pages, bits)
    ensures AllFormed(dict + pages, l)
  {
    hide HoldsKeys, HoldEach, RoomWithin, Formed;
    PagesInRoom(pages, l, keys, dictionary, ps, bits);
    if AllSmall(dict + pages) {
      SmallParts(dict, pages);
      if dictionary {
        PagesAreChunk(pages, l, keys, Some(keys), ps);
        assert (dict + pages)[1..] == pages;
        KeysAreDictionary(dict[0], l, keys);
      } else {
        PagesAreChunk(pages, l, [], None, ps);
        assert dict + pages == pages;
      }
    }
  }

  lemma {:induction false} SmallParts(a: seq<StoredPage>, b: seq<StoredPage>)
    requires AllSmall(a + b)
    ensures AllSmall(b)
  {
    forall i | 0 <= i < |b| ensures Small(b[i]) {
      assert (a + b)[|a| + i] == b[i];
    }
  }

  lemma {:induction false} KeysAreDictionary(s: StoredPage, l: Layout, keys: seq<Atom>)
    requires HoldsKeys(s, l, keys)
    ensures s.page_type == DICTIONARY_PAGE
  {
  }
}
