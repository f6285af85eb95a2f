/**
The column chunk reader: it loads page after page and hands out batches of levels and values
that never span two pages.
 */
module ColumnReading {
  import opened Formats
  import opened Options
  import opened Bits
  import opened Records
  import opened RecordReading
  import opened BitReading
  import opened PlainCoding
  import opened Dictionaries
  import opened ValueCoding
  import opened LevelCoding
  import opened ColumnChunks

  class ColumnChunkReader {
    const layout: Layout
    const rep_decoder: LevelDecoder
    const def_decoder: LevelDecoder
    const val_decoder: ValueDecoder
    var source: seq<StoredPage>  // the pages that have not been loaded
    var initialized: bool
    var eof: bool
    ghost var held: seq<Page>    // what has not been handed out, page by page

    ghost function Repr(): set<object>
      reads rep_decoder, def_decoder, val_decoder
    {
      {this} + rep_decoder.Repr + def_decoder.Repr + val_decoder.Repr
    }

    ghost predicate Apart()
      reads rep_decoder, def_decoder, val_decoder
    {
      && layout.Valid() && val_decoder.kind == layout.kind
      && rep_decoder.bit_width == BitWidth(layout.rep_level) <= 32 && def_decoder.bit_width == BitWidth(layout.def_level) <= 32
      && rep_decoder in rep_decoder.Repr && def_decoder in def_decoder.Repr && val_decoder in val_decoder.Repr
      && rep_decoder.Repr !! def_decoder.Repr && rep_decoder.Repr !! val_decoder.Repr && def_decoder.Repr !! val_decoder.Repr
      && this !in rep_decoder.Repr && this !in def_decoder.Repr && this !in val_decoder.Repr
    }

    /** The decoders stand in the page `p`. */
    ghost predicate At(p: Page)
      reads rep_decoder, def_decoder, val_decoder, Repr()
    {
      && rep_decoder.Valid() && def_decoder.Valid()
      && p == Page(def_decoder.levels, rep_decoder.levels, val_decoder.pending)
    }

    ghost predicate Valid()
      reads rep_decoder, def_decoder, val_decoder, Repr()
    {
      && Apart() && val_decoder.Valid() && AllInRange(held, layout.def_level, layout.rep_level)
      && (eof ==> source == [] && !initialized && held == [])
      && if initialized then
           held != [] && At(held[0]) && HoldsAll(source, layout, val_decoder.dict, held[1..])
         else HoldsAll(source, layout, val_decoder.dict, held)
    }

    /** The triplets that have not been handed out. */
    ghost function Rest(): seq<Triplet>
      requires Valid()
      reads rep_decoder, def_decoder, val_decoder, Repr()
    {
      AllTriplets(held, layout.def_level, layout.rep_level)
    }

    constructor (layout: Layout, pages: seq<StoredPage>, ghost ps: seq<Page>)
      requires layout.Valid() && HoldsAll(pages, layout, None, ps)
      ensures Valid() && fresh(Repr()) && this.layout == layout && held == ps
      ensures AllInRange(ps, layout.def_level, layout.rep_level) && Rest() == AllTriplets(ps, layout.def_level, layout.rep_level)
    {
      hide LevelDecoder.Decoding, ValueDecoder.Decoding, BitWidth, Lossless, HoldsAll, InRange;
      this.layout := layout;
      rep_decoder := new LevelDecoder(layout.rep_level);
      def_decoder := new LevelDecoder(layout.def_level);
      val_decoder := new ValueDecoder(layout.kind);
      source, initialized, eof, held := pages, false, false, ps;
      HoldInRange(pages, layout, None, ps);
    }

    /** Load a dictionary page: the values are decoded with it from now on. An error if it has fewer
        values than it should. */
    method LoadDictionaryPage(s: StoredPage) returns (ok: bool)
      requires Apart() && val_decoder.Valid()
      requires |layout.codec.decompress(s.contents, s.uncompressed_size)| == 8 * s.uncompressed_size
      modifies val_decoder`dict
      ensures val_decoder.Valid()
      ensures var r := ReadPlain(layout.kind, s.num_values, layout.codec.decompress(s.contents, s.uncompressed_size));
        && ok == (r.Values? && |r.values| == s.num_values)
        && val_decoder.dict == if ok then Some(r.values) else old(val_decoder.dict)
    {
      hide ReadPlain, BitWidth, LevelDecoder.Decoding;
      var contents := layout.codec.decompress(s.contents, s.uncompressed_size);
      var dict;
      ok, dict := ReadDictionary(contents, s.uncompressed_size, s.num_values);
      if ok {
        val_decoder.ResetDict(dict);
      }
    }

    /** The plain values of a dictionary page, if there are as many as there should be. */
    method ReadDictionary(contents: BitString, size: nat, n: nat) returns (ok: bool, dict: seq<Atom>)
      requires |contents| == 8 * size
      ensures var r := ReadPlain(layout.kind, n, contents); ok == (r.Values? && |r.values| == n) && (ok ==> dict == r.values)
    {
      hide ReadPlain, BitReader.Valid;
      if layout.kind.Boolean? {
        var vd := new BooleanDecoder(contents, size);
        dict := vd.ReadBatch(n);
        ok := |dict| == n;
      } else {
        var vd := new PlainDecoder(layout.kind);
        vd.Reset(contents);
        ok, dict := vd.ReadBatch(n);
        ok := ok && |dict| == n;
      }
    }

    /** Load a data page: the decoders turn to its levels and values. */
    method LoadDataPage(s: StoredPage, ghost p: Page)
      requires Apart() && val_decoder.Valid() && (IsDictionary(s.encoding) ==> val_decoder.dict.Some?)
      requires Holds(s, layout, if val_decoder.dict.Some? then val_decoder.dict.value else [], p)
      modifies rep_decoder.Repr, def_decoder.Repr, val_decoder.Repr
      ensures Apart() && val_decoder.Valid() && At(p) && val_decoder.dict == old(val_decoder.dict)
      ensures fresh(rep_decoder.Repr - old(rep_decoder.Repr)) && fresh(def_decoder.Repr - old(def_decoder.Repr))
      ensures fresh(val_decoder.Repr - old(val_decoder.Repr))
    {
      hide BitWidth, LevelDecoder.Decoding, ValueDecoder.Decoding, Denotes, HoldsLevels, InRange, Lossless,
        LevelBytes, Overlong;
      var contents := layout.codec.decompress(s.contents, s.uncompressed_size);
      ghost var keys := if val_decoder.dict.Some? then val_decoder.dict.value else [];
      ghost var w, v := BitWidth(layout.rep_level), BitWidth(layout.def_level);
      ghost var after := contents[8 * LevelBytes(contents, w)..];
      SameCount(p, layout);
      NotOverlong(contents, w, p.reps, s.uncompressed_size);
      var n := rep_decoder.ResetV1(contents, s.uncompressed_size, s.num_values, p.reps);
      contents := contents[8 * n.value..];
      NotOverlong(contents, v, p.defs, s.uncompressed_size - n.value);
      var m := def_decoder.ResetV1(contents, s.uncompressed_size - n.value, s.num_values, p.defs);
      contents := contents[8 * m.value..];
      IndexPageNotEmpty(layout.kind, keys, s.encoding, contents, p.values);
      var ok := val_decoder.Reset(contents, s.uncompressed_size - n.value - m.value, s.encoding, p.values);
    }

    /** Load the next page, if there is one. */
    method LoadNextPage()
      requires Valid() && !initialized && !eof
      modifies Repr()
      ensures Valid() && fresh(Repr() - old(Repr())) && held == old(held)
      ensures if old(source) == [] then eof else |source| < |old(source)| && !eof
    {
      hide BitWidth, LevelDecoder.Decoding, ValueDecoder.Decoding, Holds, ReadPlain, InRange, Lossless;
      if source == [] {
        eof := true;
        return;
      }
      var page := source[0];
      source := source[1..];
      match page.page_type
      case DATA_PAGE =>
        LoadDataPage(page, held[0]);
        initialized := true;
      case DICTIONARY_PAGE =>
        ghost var keys :| HoldsKeys(page, layout, keys) && HoldsAll(source, layout, Some(keys), held);
        var ok := LoadDictionaryPage(page);
        assert ok && val_decoder.dict == Some(keys);
      case OTHER_PAGE =>
    }

    /** The next levels of the current page, at most `n`, and the values that go with them. */
    method TakeBatch(n: nat) returns (batch: Page)
      requires Valid() && initialized && n > 0
      modifies Repr()
      ensures Apart() && val_decoder.Valid() && fresh(Repr() - old(Repr())) && val_decoder.dict == old(val_decoder.dict)
      ensures initialized && eof == old(eof) && source == old(source) && held == old(held)
      ensures var k := Min(n, |held[0].defs|);
        batch == Taken(held[0], k, layout.def_level) && At(Left(held[0], k, layout.def_level))
    {
      hide BitWidth, LevelDecoder.Decoding, ValueDecoder.Decoding, HoldsAll, Lossless, Triplets, CountMax;
      ghost var k := Min(n, |held[0].defs|);
      PageSplit(held[0], k, layout.def_level, layout.rep_level);
      CountSplit(held[0].defs, k, layout.def_level);
      var defs, reps := TakeLevels(n);
      assert |defs| == |reps|;
      var values_to_read := ValuesToRead(defs);
      var ok, values := val_decoder.ReadBatch(values_to_read);
      assert ok && |values| == values_to_read;
      batch := Page(defs, reps, values);
    }

    method TakeLevels(n: nat) returns (defs: seq<nat>, reps: seq<nat>)
      requires Apart() && def_decoder.Valid() && rep_decoder.Valid() && |def_decoder.levels| == |rep_decoder.levels|
      modifies def_decoder.Repr, rep_decoder.Repr
      ensures Apart() && def_decoder.Valid() && rep_decoder.Valid()
      ensures def_decoder.Repr == old(def_decoder.Repr) && rep_decoder.Repr == old(rep_decoder.Repr)
      ensures var k := Min(n, |old(def_decoder.levels)|);
        && defs == old(def_decoder.levels)[..k] && def_decoder.levels == old(def_decoder.levels)[k..]
        && reps == old(rep_decoder.levels)[..k] && rep_decoder.levels == old(rep_decoder.levels)[k..]
    {
      hide BitWidth, LevelDecoder.Decoding, Lossless;
      defs := def_decoder.ReadBatch(n);
      reps := rep_decoder.ReadBatch(n);
    }

    /** Without definition levels every place has a value. */
    method ValuesToRead(defs: seq<nat>) returns (n: nat)
      requires forall i :: 0 <= i < |defs| ==> defs[i] <= layout.def_level
      ensures n == CountMax(defs, layout.def_level)
    {
      if layout.def_level == 0 {
        AllAtZero(defs);
        return |defs|;
      }
      n := Count(defs, layout.def_level);
    }

    /** A batch of at most `n` levels with their values. It does not span pages, and is empty only
        at the end of the chunk; what was held is handed out in order. */
    method ReadBatch(n: nat) returns (batch: Page)
      requires Valid() && n > 0
      modifies Repr()
      ensures Valid() && fresh(Repr() - old(Repr()))
      ensures InRange(batch, layout.def_level, layout.rep_level) && (batch.defs == [] ==> Rest() == [])
      ensures |batch.defs| == BatchOf(Sizes(old(held)), n) && Sizes(held) == AfterBatch(Sizes(old(held)), n)
      ensures PageTriplets(batch, layout.def_level) + Rest() == old(Rest())
      decreases |source|, !eof, initialized
    {
      hide BitWidth, LevelDecoder.Decoding, ValueDecoder.Decoding, HoldsAll, Lossless, Triplets, CountMax, Sizes, BatchOf, AfterBatch;
      NoSizes(n);
      if eof {
        batch := EMPTY_PAGE;
        EmptyPage(batch, layout.def_level);
      } else if !initialized {
        LoadNextPage();
        batch := ReadBatch(n);
      } else {
        batch := HandOut(n);
        if batch.defs == [] {
          batch := ReadBatch(n);
        }
      }
    }

    /** A batch from the current page; when the page has no levels left, it is done with. */
    method HandOut(n: nat) returns (batch: Page)
      requires Valid() && initialized && n > 0
      modifies Repr()
      ensures Valid() && fresh(Repr() - old(Repr())) && source == old(source) && eof == old(eof)
      ensures initialized <==> batch.defs != []
      ensures InRange(batch, layout.def_level, layout.rep_level)
      ensures batch.defs == [] ==> Sizes(held) == Sizes(old(held))
      ensures batch.defs != [] ==>
        |batch.defs| == BatchOf(Sizes(old(held)), n) && Sizes(held) == AfterBatch(Sizes(old(held)), n)
      ensures PageTriplets(batch, layout.def_level) + Rest() == old(Rest())
      ensures batch.defs == [] ==> PageTriplets(batch, layout.def_level) == []
    {
      hide BitWidth, LevelDecoder.Decoding, ValueDecoder.Decoding, HoldsAll, Lossless, Triplets, CountMax, AllTriplets, Sizes,
        BatchOf, AfterBatch, AfterHandOut;
      ghost var k := Min(n, |held[0].defs|);
      PageSplit(held[0], k, layout.def_level, layout.rep_level);
      HandedOut(held, n, k, layout.def_level, layout.rep_level);
      batch := TakeBatch(n);
      TurnPage(batch.defs == [], k);
    }

    /** The first `k` levels of the page have been taken; if there were none, it is done with. */
    method TurnPage(done: bool, ghost k: nat)
      requires Apart() && val_decoder.Valid() && AllInRange(held, layout.def_level, layout.rep_level) && !eof && initialized
      requires held != [] && k <= |held[0].defs| && (done <==> k == 0)
      requires At(Left(held[0], k, layout.def_level)) && HoldsAll(source, layout, val_decoder.dict, held[1..])
      modifies `initialized, `held
      ensures Valid() && (initialized <==> !done) && held == AfterHandOut(old(held), k, layout.def_level)
    {
      hide BitWidth, LevelDecoder.Decoding, ValueDecoder.Decoding, HoldsAll, Lossless, CountMax, Triplets;
      PageSplit(held[0], k, layout.def_level, layout.rep_level);
      ghost var others := held[1..];
      held := AfterHandOut(held, k, layout.def_level);
      if done {
        initialized := false;
      } else {
        assert held[1..] == others;
      }
    }
  }

  /** What is held after `k` levels of the first page have been handed out, or it has turned out to be empty. */
  ghost function AfterHandOut(pages: seq<Page>, k: nat, def: nat): seq<Page>
    requires pages != [] && k <= |pages[0].defs| == |pages[0].reps| && |pages[0].values| == CountMax(pages[0].defs, def)
  {
    if k == 0 then pages[1..] else [Left(pages[0], k, def)] + pages[1..]
  }

  lemma {:induction false} HandedOut(pages: seq<Page>, n: nat, k: nat, def: nat, rep: nat)
    requires pages != [] && AllInRange(pages, def, rep) && n > 0 && k == Min(n, |pages[0].defs|)
    ensures var batch, after := Taken(pages[0], k, def), AfterHandOut(pages, k, def);
      && |batch.defs| == k && (k == 0 ==> pages[0].defs == []) && InRange(batch, def, rep) && AllInRange(after, def, rep)
      && PageTriplets(batch, def) + AllTriplets(after, def, rep) == AllTriplets(pages, def, rep)
      && if k == 0 then PageTriplets(batch, def) == [] && Sizes(after) == Sizes(pages)
         else k == BatchOf(Sizes(pages), n) && Sizes(after) == AfterBatch(Sizes(pages), n)
  {
    hide Triplets, CountMax, Sizes, BatchOf, AfterBatch;
    var batch, left, others := Taken(pages[0], k, def), Left(pages[0], k, def), pages[1..];
    PageSplit(pages[0], k, def, rep);
    SizesOfLeft(pages, n, k, def, rep);
    if k == 0 {
      EmptyPage(pages[0], def);
      EmptyPage(batch, def);
    } else {
      assert ([left] + others)[1..] == others;
      Associate(PageTriplets(batch, def), PageTriplets(left, def), AllTriplets(others, def, rep));
    }
  }

  lemma {:induction false} NoSizes(n: nat)
    ensures Sizes([]) == [] && BatchOf([], n) == 0 && AfterBatch([], n) == []
  {
  }

  lemma {:induction false} HoldInRange(pages: seq<StoredPage>, l: Layout, dict: Option<seq<Atom>>, ps: seq<Page>)
    requires HoldsAll(pages, l, dict, ps)
    ensures AllInRange(ps, l.def_level, l.rep_level)
    decreases |pages|
  {
    hide HoldsKeys, HoldsLevels, Denotes, InRange;
    if pages != [] {
      match pages[0].page_type
      case DATA_PAGE => HoldInRange(pages[1..], l, dict, ps[1..]);
      case DICTIONARY_PAGE =>
        var keys :| HoldsKeys(pages[0], l, keys) && HoldsAll(pages[1..], l, Some(keys), ps);
        HoldInRange(pages[1..], l, Some(keys), ps);
      case OTHER_PAGE => HoldInRange(pages[1..], l, dict, ps);
    }
  }

  lemma {:induction false} SameCount(p: Page, l: Layout)
    requires InRange(p, l.def_level, l.rep_level)
    ensures |p.defs| == |p.reps|
  {
  }

  lemma {:induction false} NotOverlong(bits: BitString, w: nat, levels: seq<nat>, size: nat)
    requires HoldsLevels(bits, w, levels) && |bits| == 8 * size
    ensures w > 0 ==> !Overlong(bits, size)
  {
  }

  lemma {:induction false} IndexPageNotEmpty(kind: Kind, keys: seq<Atom>, encoding: Encoding, bits: BitString, data: seq<Atom>)
    requires Denotes(kind, keys, encoding, bits, data)
    ensures IsDictionary(encoding) ==> |bits| >= 8
    ensures encoding == PLAIN || IsDictionary(encoding)
  {
  }

  /** The number of levels equal to `max`. */
  method Count(levels: seq<nat>, max: nat) returns (n: nat)
    ensures n == CountMax(levels, max)
  {
    n := 0;
    for i := 0 to |levels|
      invariant n == CountMax(levels[..i], max)
    {
      CountSplit(levels[..i + 1], i, max);
      assert levels[..i + 1][..i] == levels[..i] && levels[..i + 1][i..] == [levels[i]];
      assert [levels[i]][1..] == [];
      n := n + (if levels[i] == max then 1 else 0);
    }
    assert levels[..|levels|] == levels;
  }

  lemma {:induction false} AllAtZero(levels: seq<nat>)
    requires forall i :: 0 <= i < |levels| ==> levels[i] <= 0
    ensures CountMax(levels, 0) == |levels|
  {
    if levels != [] {
      AllAtZero(levels[1..]);
    }
  }
}
