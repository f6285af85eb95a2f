/**
All the way: records are shredded into columns, the columns written as chunks of pages, the
pages read back in batches, and the records assembled again. They come back exactly as long as the
encoders keep their values.
 */
module RecordRoundTrips {
  import opened Options
  import opened Formats
  import opened Bits
  import opened Records
  import A = Assembly
  import L = Lossless
  import opened RecordReading
  import F = FieldReading
  import opened Rle
  import opened PlainCoding
  import opened ValueCoding
  import opened ColumnChunks
  import opened ColumnReading
  import opened ChunkRoundTrips

  // ----- The columns of shredded records can be put on column writers -----

  /** Levels up to the maxima of the primitive, and a value exactly at its definition level. */
  predicate Normal(ts: seq<Triplet>, prim: Node)
    requires prim.Primitive?
  {
    forall i :: 0 <= i < |ts| ==>
      && ts[i].def_level <= prim.def_level && ts[i].rep_level <= prim.rep_level
      && (ts[i].value.Some? <==> ts[i].def_level == prim.def_level)
  }

  predicate AllNormal(cols: Columns, prims: seq<Node>) {
    && |cols| == |prims|
    && forall j :: 0 <= j < |cols| ==> prims[j].Primitive? && Normal(cols[j], prims[j])
  }

  predicate AtLeast(prims: seq<Node>, def: nat, rep: nat) {
    forall j :: 0 <= j < |prims| ==> prims[j].Primitive? && prims[j].def_level >= def && prims[j].rep_level >= rep
  }

  lemma {:induction false} LevelsGrow(node: Node, d: nat, l: nat)
    requires Levelled(node, d, l)
    ensures AtLeast(Primitives(node), d, l)
    decreases node
  {
    match node
    case Primitive(_, _, _, _) =>
    case Optional(_, _, _, body) => LevelsGrow(body, d + 1, l);
    case Pair(key, value) =>
      LevelsGrow(key, d, l);
      LevelsGrow(value, d, l);
    case Struct(_, fields) => FieldLevelsGrow(fields, d, l);
    case _ => LevelsGrow(node.body, d + 1, l + 1);
  }

  lemma {:induction false} FieldLevelsGrow(fields: seq<Node>, d: nat, l: nat)
    requires AllLevelled(fields, d, l)
    ensures AtLeast(PrimitivesOf(fields), d, l)
    decreases fields
  {
    if fields != [] {
      LevelsGrow(fields[0], d, l);
      FieldLevelsGrow(fields[1..], d, l);
    }
  }

  lemma {:induction false} NormalBeside(a: Columns, p: seq<Node>, b: Columns, q: seq<Node>)
    requires AllNormal(a, p) && AllNormal(b, q)
    ensures AllNormal(a + b, p + q)
  {
    hide Normal;
  }

  lemma {:induction false} NormalZip(a: Columns, b: Columns, p: seq<Node>)
    requires AllNormal(a, p) && AllNormal(b, p)
    ensures AllNormal(Zip(a, b), p)
  {
    forall j | 0 <= j < |a| ensures Normal(a[j] + b[j], p[j]) {
      assert Normal(a[j], p[j]) && Normal(b[j], p[j]);
    }
  }

  lemma {:induction false} NormalBlank(node: Node, d: nat, l: nat, def: nat, rep: nat)
    requires Levelled(node, d, l) && def < d && rep <= l
    ensures AllNormal(Blank(node, def, rep), Primitives(node))
  {
    LevelsGrow(node, d, l);
  }

  lemma {:induction false} NormalEmpties(prims: seq<Node>)
    requires forall j :: 0 <= j < |prims| ==> prims[j].Primitive?
    ensures AllNormal(Empties(|prims|), prims)
  {
  }

  /** The shredded columns of a value respect the maxima of the schema. */
  lemma {:induction false} ShredIsNormal(node: Node, v: Value, rep: nat, d: nat, l: nat)
    requires Conforms(node, v) && Levelled(node, d, l) && rep <= l
    ensures AllNormal(Shred(node, v, rep), Primitives(node))
    decreases node, 1, 0
  {
    hide AllNormal, Normal;
    match node
    case Primitive(_, _, _, _) => LeafIsNormal(node, v, rep, d, l);
    case Optional(_, _, _, body) =>
      if v.Null? {
        NormalBlank(body, d + 1, l, d, rep);
      } else {
        ShredIsNormal(body, v.value, rep, d + 1, l);
      }
    case Pair(key, value) =>
      ShredIsNormal(key, v.key, rep, d, l);
      ShredIsNormal(value, v.value, rep, d, l);
      NormalBeside(Shred(key, v.key, rep), Primitives(key), Shred(value, v.value, rep), Primitives(value));
    case Struct(_, fields) => ShredFieldsIsNormal(fields, v.fields, rep, d, l);
    case _ =>
      if v.items == [] {
        NormalBlank(node.body, d + 1, l + 1, d, rep);
      } else {
        ShredItemsIsNormal(node.body, v.items, rep, l + 1, d + 1, l + 1);
      }
  }

  lemma {:induction false} LeafIsNormal(node: Node, v: Value, rep: nat, d: nat, l: nat)
    requires node.Primitive? && Conforms(node, v) && Levelled(node, d, l) && rep <= l
    ensures AllNormal(Shred(node, v, rep), Primitives(node))
  {
  }

  lemma {:induction false} ShredFieldsIsNormal(fields: seq<Node>, vs: seq<Value>, rep: nat, d: nat, l: nat)
    requires AllConform(fields, vs) && AllLevelled(fields, d, l) && rep <= l
    ensures AllNormal(ShredFields(fields, vs, rep), PrimitivesOf(fields))
    decreases fields, 1, 0
  {
    if fields != [] {
      ShredIsNormal(fields[0], vs[0], rep, d, l);
      ShredFieldsIsNormal(fields[1..], vs[1..], rep, d, l);
      NormalBeside(Shred(fields[0], vs[0], rep), Primitives(fields[0]),
        ShredFields(fields[1..], vs[1..], rep), PrimitivesOf(fields[1..]));
    }
  }

  lemma {:induction false} ShredItemsIsNormal(node: Node, vs: seq<Value>, first: nat, next: nat, d: nat, l: nat)
    requires EachConforms(node, vs) && Levelled(node, d, l) && first <= l && next <= l
    ensures AllNormal(ShredItems(node, vs, first, next), Primitives(node))
    decreases node, 2, |vs|
  {
    hide AllNormal, Normal;
    if vs == [] {
      NormalEmpties(Primitives(node));
    } else {
      ShredIsNormal(node, vs[0], first, d, l);
      ShredItemsIsNormal(node, vs[1..], next, next, d, l);
      NormalZip(Shred(node, vs[0], first), ShredItems(node, vs[1..], next, next), Primitives(node));
    }
  }

  lemma {:induction false} RecordsAreNormal(fields: seq<Node>, records: seq<Value>)
    requires AllRecords(fields, records) && AllLevelled(fields, 0, 0)
    ensures AllNormal(ShredRecords(fields, records), PrimitivesOf(fields))
  {
    hide AllNormal, Normal, AllLevelled, AllConform;
    if records == [] {
      NormalEmpties(PrimitivesOf(fields));
    } else {
      ShredFieldsIsNormal(fields, records[0].fields, 0, 0, 0);
      RecordsAreNormal(fields, records[1..]);
      NormalZip(ShredFields(fields, records[0].fields, 0), ShredRecords(fields, records[1..]), PrimitivesOf(fields));
    }
  }

  /** Puts that make a column of triplets, in pages of one. */
  function Puts(ts: seq<Triplet>): seq<Step> {
    if ts == [] then []
    else
      var t := ts[|ts| - 1];
      Puts(ts[..|ts| - 1]) + [FlushStep]
        + [PutStep(t.def_level, t.rep_level, if t.value.Some? then t.value.value else [])]
  }

  lemma {:induction false} PutsPut(ts: seq<Triplet>, prim: Node, l: Layout)
    requires prim.Primitive? && Normal(ts, prim) && l.def_level == prim.def_level && l.rep_level == prim.rep_level
    requires ValuesFit(ts, l.kind)
    ensures Put(l, Puts(ts)) == ts && Allowed(l, Puts(ts)) && ShortPages(Puts(ts)) && SinceFlush(Puts(ts)) <= 1
    decreases |ts|
  {
    hide Storable, ShortPages, SinceFlush, Put, Allowed;
    if ts == [] {
      NoSteps(l);
    } else {
      var front, t := ts[..|ts| - 1], ts[|ts| - 1];
      PutsPut(front, prim, l);
      FrontAndLast(ts);
      var s := PutStep(t.def_level, t.rep_level, if t.value.Some? then t.value.value else []);
      AnotherStep(l, Puts(front), FlushStep);
      AnotherStep(l, Puts(front) + [FlushStep], s);
    }
  }

  lemma {:induction false} NoSteps(l: Layout)
    ensures Put(l, []) == [] && Allowed(l, []) && ShortPages([]) && SinceFlush([]) == 0
  {
  }

  lemma {:induction false} AnotherStep(l: Layout, steps: seq<Step>, s: Step)
    requires Allowed(l, steps) && ShortPages(steps) && SinceFlush(steps) <= 1 && (s.PutStep? ==> SinceFlush(steps) == 0)
    requires s.PutStep? ==>
      s.def <= l.def_level && s.rep <= l.rep_level && (s.def == l.def_level ==> Storable(l.kind, s.val))
    ensures Allowed(l, steps + [s]) && ShortPages(steps + [s])
    ensures SinceFlush(steps + [s]) == if s.FlushStep? then 0 else 1
    ensures Put(l, steps + [s])
      == Put(l, steps) + if s.FlushStep? then [] else [Triplet(s.def, s.rep, if s.def == l.def_level then Some(s.val) else None)]
  {
    hide Storable, ShortPages, SinceFlush;
    PagesAppend(steps, s);
    assert (steps + [s])[..|steps|] == steps;
  }

  lemma {:induction false} PagesAppend(steps: seq<Step>, s: Step)
    requires ShortPages(steps) && (s.PutStep? ==> SinceFlush(steps) + 1 < MAX_REPEAT)
    ensures ShortPages(steps + [s])
    ensures SinceFlush(steps + [s]) == if s.FlushStep? then 0 else SinceFlush(steps) + 1
  {
    hide SinceFlush;
    var all := steps + [s];
    assert all[..|steps|] == steps && steps[..|steps|] == steps && all[..|all|] == all;
    forall i | 0 <= i <= |steps| ensures SinceFlush(all[..i]) < MAX_REPEAT {
      assert all[..i] == steps[..i];
    }
    SinceFlushOne(steps, s);
  }

  lemma {:induction false} SinceFlushOne(steps: seq<Step>, s: Step)
    ensures SinceFlush(steps + [s]) == if s.FlushStep? then 0 else SinceFlush(steps) + 1
  {
    assert (steps + [s])[..|steps|] == steps;
  }

  // ----- Storing and loading -----

  /** Read a whole chunk in batches of one size. */
  method LoadAll(r: ColumnChunkReader, batch_size: nat) returns (pages: seq<Page>)
    requires r.Valid() && batch_size > 0
    modifies r.Repr()
    ensures AllInRange(pages, r.layout.def_level, r.layout.rep_level)
    ensures AllTriplets(pages, r.layout.def_level, r.layout.rep_level) == old(r.Rest())
  {
    hide ColumnChunkReader.Valid, ColumnChunkReader.Rest, Triplets, CountMax, AllTriplets, AllInRange;
    var l := r.layout;
    ghost var all := r.Rest();
    pages := [];
    NothingLoaded(l, all);
    var more := true;
    while more
      invariant r.Valid() && fresh(r.Repr() - old(r.Repr())) && AllInRange(pages, l.def_level, l.rep_level)
      invariant all == AllTriplets(pages, l.def_level, l.rep_level) + r.Rest()
      invariant !more ==> r.Rest() == []
      decreases more, |r.Rest()|
    {
      var batch := r.ReadBatch(batch_size);
      if batch.defs == [] {
        more := false;
        EmptyPage(batch, l.def_level);
      } else {
        OneMoreLoaded(l, pages, batch, r.Rest());
        pages := pages + [batch];
      }
    }
  }

  lemma {:induction false} NothingLoaded(l: Layout, all: seq<Triplet>)
    ensures AllInRange([], l.def_level, l.rep_level) && AllTriplets([], l.def_level, l.rep_level) + all == all
  {
  }

  lemma {:induction false} OneMoreLoaded(l: Layout, pages: seq<Page>, batch: Page, rest: seq<Triplet>)
    requires AllInRange(pages, l.def_level, l.rep_level) && InRange(batch, l.def_level, l.rep_level)
    ensures AllInRange(pages + [batch], l.def_level, l.rep_level)
    ensures AllTriplets(pages + [batch], l.def_level, l.rep_level) + rest
      == AllTriplets(pages, l.def_level, l.rep_level) + (PageTriplets(batch, l.def_level) + rest)
  {
    hide Triplets, CountMax;
    AllTripletsAppend(pages, batch, l.def_level, l.rep_level);
    Associate(AllTriplets(pages, l.def_level, l.rep_level), PageTriplets(batch, l.def_level), rest);
  }

  /** Write a column and load it again; not when a page is too big for its header. */
  method StoreAndLoad(l: Layout, encoding: Encoding, steps: seq<Step>, batch_size: nat) returns (small: bool, pages: seq<Page>)
    requires l.Valid() && Codable(encoding) && Allowed(l, steps) && PagesFit(NewCoder(l.kind, encoding), l, steps) && batch_size > 0
    ensures AllInRange(pages, l.def_level, l.rep_level)
    ensures small ==> AllTriplets(pages, l.def_level, l.rep_level) == Reading(NewCoder(l.kind, encoding), l, steps)
    ensures Fitting(l, steps) ==> small
  {
    hide ColumnChunkReader.Valid, ColumnChunkReader.Rest, HoldsAll, Triplets, CountMax, Layout.Valid, Allowed,
      PagesFit, Put, Reading,
      InRange, Fitting;
    ghost var c := NewCoder(l.kind, encoding);
    pages := [];
    var chunk := WriteChunk(l, encoding, steps);
    small := AllSmall(chunk);
    if small {
      ghost var held :| HoldsAll(chunk, l, None, held)
        && AllInRange(held, l.def_level, l.rep_level) && AllTriplets(held, l.def_level, l.rep_level) == Reading(c, l, steps);
      var r := new ColumnChunkReader(l, chunk, held);
      pages := LoadAll(r, batch_size);
    }
  }

  /** Every primitive has a column writer of its own, with the same maxima. */
  predicate Matches(prims: seq<Node>, layouts: seq<Layout>) {
    && |layouts| == |prims|
    && forall j :: 0 <= j < |prims| ==>
      && prims[j].Primitive? && prims[j].column_index == j
      && prims[j].def_level == layouts[j].def_level && prims[j].rep_level == layouts[j].rep_level
  }

  /** Each column is given in puts, with page flushes anywhere among them; its writer has an encoding. */
  ghost predicate AllPuttable(layouts: seq<Layout>, encodings: seq<Encoding>, steps: seq<seq<Step>>) {
    && |layouts| == |encodings| == |steps|
    && forall j :: 0 <= j < |steps| ==>
      && layouts[j].Valid() && Codable(encodings[j]) && Allowed(layouts[j], steps[j])
      && PagesFit(NewCoder(layouts[j].kind, encodings[j]), layouts[j], steps[j])
  }

  /** What has been put on the columns, page flushes left out. */
  function PutColumns(layouts: seq<Layout>, steps: seq<seq<Step>>): (cols: Columns)
    requires |layouts| == |steps|
    ensures |cols| == |steps|
  {
    seq(|steps|, j requires 0 <= j < |steps| => Put(layouts[j], steps[j]))
  }

  /** What a reader gets. */
  function ReadColumns(layouts: seq<Layout>, encodings: seq<Encoding>, steps: seq<seq<Step>>): (cols: Columns)
    requires |layouts| == |encodings| == |steps|
    ensures |cols| == |steps|
  {
    seq(|steps|, j requires 0 <= j < |steps| => Reading(NewCoder(layouts[j].kind, encodings[j]), layouts[j], steps[j]))
  }

  /** Every value of every column is kept. */
  predicate AllKept(layouts: seq<Layout>, encodings: seq<Encoding>, steps: seq<seq<Step>>)
    requires |layouts| == |encodings| == |steps|
  {
    forall j :: 0 <= j < |steps| ==> Faithful(NewCoder(layouts[j].kind, encodings[j]), layouts[j], steps[j])
  }

  /** The columns that are read have the levels of those that were put, and the same values if and
      only if all of them are kept. */
  lemma {:induction false} ColumnsReadBackIff(layouts: seq<Layout>, encodings: seq<Encoding>, steps: seq<seq<Step>>)
    requires |layouts| == |encodings| == |steps|
    ensures L.AllSameShape(ReadColumns(layouts, encodings, steps), PutColumns(layouts, steps))
    ensures ReadColumns(layouts, encodings, steps) == PutColumns(layouts, steps) <==> AllKept(layouts, encodings, steps)
  {
    hide Faithful, Reading, Put, Coder.Kept, L.SameShape;
    var read, put := ReadColumns(layouts, encodings, steps), PutColumns(layouts, steps);
    forall j | 0 <= j < |steps|
      ensures L.SameShape(read[j], put[j])
      ensures read[j] == put[j] <==> Faithful(NewCoder(layouts[j].kind, encodings[j]), layouts[j], steps[j])
    {
      var c := NewCoder(layouts[j].kind, encodings[j]);
      NewIsKept(layouts[j].kind, encodings[j]);
      ReadBackIffFaithful(c, layouts[j], steps[j]);
      ReadingShape(c, layouts[j], steps[j]);
    }
  }

  lemma {:induction false} ReadingShape(c: Coder, l: Layout, steps: seq<Step>)
    ensures L.SameShape(Reading(c, l, steps), Put(l, steps))
  {
    hide Coder.Read, StateAfter;
    if steps != [] {
      ReadingShape(c, l, steps[..|steps| - 1]);
    }
  }

  method StoreColumns(
    layouts: seq<Layout>, encodings: seq<Encoding>, steps: seq<seq<Step>>, batch_size: nat, ghost prims: seq<Node>)
    returns (small: bool, chunks: seq<seq<Page>>)
    requires AllPuttable(layouts, encodings, steps) && batch_size > 0 && Matches(prims, layouts)
    ensures F.HasColumns(prims, chunks)
    ensures small ==> F.RowGroup(prims, chunks) == ReadColumns(layouts, encodings, steps)
    ensures AllFitting(layouts, steps) ==> small
  {
    hide Put, Reading, Allowed, PagesFit, Layout.Valid, InRange, AllTriplets, Fitting;
    ghost var cols := ReadColumns(layouts, encodings, steps);
    small, chunks := true, [];
    for j := 0 to |layouts|
      invariant |chunks| == j && (AllFitting(layouts, steps) ==> small)
      invariant forall i :: 0 <= i < j ==> AllInRange(chunks[i], layouts[i].def_level, layouts[i].rep_level)
      invariant small ==> forall i :: 0 <= i < j ==> AllTriplets(chunks[i], layouts[i].def_level, layouts[i].rep_level) == cols[i]
    {
      var fits, pages := StoreAndLoad(layouts[j], encodings[j], steps[j], batch_size);
      small := small && fits;
      chunks := chunks + [pages];
    }
    Collected(layouts, chunks, cols, prims, small);
  }

  lemma {:induction false} Collected(
    layouts: seq<Layout>, chunks: seq<seq<Page>>, cols: Columns, prims: seq<Node>, small: bool)
    requires Matches(prims, layouts) && |chunks| == |layouts| == |cols|
    requires forall i :: 0 <= i < |chunks| ==> AllInRange(chunks[i], layouts[i].def_level, layouts[i].rep_level)
    requires small ==> forall i :: 0 <= i < |chunks| ==> AllTriplets(chunks[i], layouts[i].def_level, layouts[i].rep_level) == cols[i]
    ensures F.HasColumns(prims, chunks)
    ensures small ==> F.RowGroup(prims, chunks) == cols
  {
    hide AllInRange, AllTriplets;
  }

  predicate AllFitting(layouts: seq<Layout>, steps: seq<seq<Step>>)
    requires |layouts| == |steps|
  {
    forall j :: 0 <= j < |layouts| ==> Fitting(layouts[j], steps[j])
  }

  /** Records survive. Whatever records conform to a readable schema, however the pages of their
      columns are flushed, encoded and compressed, and whatever the batch sizes of the readers: the
      consumer gets the calls that spell records of the same shape, with the values that the encoders
      make of those put. They are the records that were written if and only if every value is kept.
      Pages have to fit their headers, which only too much data can prevent, and levels 16 bits. */
  method RecordsSurvive(
    fields: seq<Node>, layouts: seq<Layout>, encodings: seq<Encoding>, steps: seq<seq<Step>>,
    read_size: nat, batch_size: nat, c: Consumer, ghost records: seq<Value>)
    returns (small: bool, ok: bool, ghost read: seq<Value>)
    requires AllLevelled(fields, 0, 0) && A.Readable(fields) && AllRecords(fields, records)
    requires Matches(PrimitivesOf(fields), layouts) && AllPuttable(layouts, encodings, steps)
    requires PutColumns(layouts, steps) == ShredRecords(fields, records)
    requires read_size > 0 && batch_size > 0
    modifies c
    ensures AllRecords(fields, read) && ShredRecords(fields, read) == ReadColumns(layouts, encodings, steps)
    ensures small && F.Supported(PrimitivesOf(fields)) ==>
      && ok && c.calls == old(c.calls) + SpellRecords(fields, read)
      && (c.calls == old(c.calls) + SpellRecords(fields, records) <==> AllKept(layouts, encodings, steps))
    ensures AllFitting(layouts, steps) ==> small
  {
    hide AllLevelled, A.Readable, Matches, Layout.Valid, Allowed, PagesFit, PutColumns, ReadColumns, ShredRecords,
      SpellRecords, F.HasColumns, F.RowGroup,
      F.Supported, AllFitting, AllKept, AllRecords, L.AllSameShape;
    ColumnsReadBackIff(layouts, encodings, steps);
    read := L.RefillRecords(fields, records, ReadColumns(layouts, encodings, steps));
    var chunks;
    small, chunks := StoreColumns(layouts, encodings, steps, read_size, PrimitivesOf(fields));
    ok := false;
    if small {
      ok := F.ReadRowGroup(fields, chunks, batch_size, c, read);
    }
    SameCalls(fields, records, read, old(c.calls));
  }

  lemma {:induction false} SameCalls(fields: seq<Node>, a: seq<Value>, b: seq<Value>, before: seq<Event>)
    requires AllRecords(fields, a) && AllRecords(fields, b) && AllLevelled(fields, 0, 0)
    ensures before + SpellRecords(fields, a) == before + SpellRecords(fields, b) <==> a == b
    ensures A.Readable(fields) ==> (ShredRecords(fields, a) == ShredRecords(fields, b) <==> a == b)
  {
    hide AllLevelled, SpellRecords, AllRecords;
    var x, y := SpellRecords(fields, a), SpellRecords(fields, b);
    assert (before + x)[|before|..] == x && (before + y)[|before|..] == y;
    if x == y {
      L.RecordsUnambiguous(fields, a, b);
    }
    if A.Readable(fields) {
      L.ShredIsLossless(fields, a, b);
    }
  }

  /** There are such puts for every list of records whose values fit their columns. */
  lemma {:induction false} PutsExist(fields: seq<Node>, layouts: seq<Layout>, encodings: seq<Encoding>, records: seq<Value>)
    returns (steps: seq<seq<Step>>)
    requires AllRecords(fields, records) && AllLevelled(fields, 0, 0) && Matches(PrimitivesOf(fields), layouts)
    requires |encodings| == |layouts|
    requires forall j :: 0 <= j < |layouts| ==> layouts[j].Valid() && Codable(encodings[j])
    requires var cols := ShredRecords(fields, records);
      forall j :: 0 <= j < |cols| ==> ValuesFit(cols[j], layouts[j].kind)
    ensures AllPuttable(layouts, encodings, steps) && PutColumns(layouts, steps) == ShredRecords(fields, records)
  {
    hide AllLevelled, ShredRecords, Layout.Valid, Puts, Put, Allowed, ShortPages, PagesFit, ValuesFit, Normal;
    var cols, prims := ShredRecords(fields, records), PrimitivesOf(fields);
    RecordsAreNormal(fields, records);
    steps := seq(|cols|, j requires 0 <= j < |cols| => Puts(cols[j]));
    forall j | 0 <= j < |cols|
      ensures Allowed(layouts[j], steps[j]) && Put(layouts[j], steps[j]) == cols[j]
      ensures PagesFit(NewCoder(layouts[j].kind, encodings[j]), layouts[j], steps[j])
    {
      PutsPut(cols[j], prims[j], layouts[j]);
      ShortPagesFit(NewCoder(layouts[j].kind, encodings[j]), layouts[j], steps[j]);
    }
  }

  predicate ValuesFit(ts: seq<Triplet>, kind: Kind) {
    forall i :: 0 <= i < |ts| && ts[i].value.Some? ==> Storable(kind, ts[i].value.value)
  }
}
