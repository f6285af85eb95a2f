/**
A whole file: a writer's schema is flattened, records are put on its column writers, the chunks
and the metadata go into a file of bytes; the reader finds the metadata from the end, rebuilds the
schema, follows the offsets to the pages of each column, and assembles the records.
 */
module FileRoundTrips {
  import opened Options
  import opened Formats
  import opened Bits
  import opened ByteStrings
  import opened Records
  import A = Assembly
  import N = Lossless
  import opened RecordReading
  import F = FieldReading
  import opened PlainCoding
  import opened ValueCoding
  import opened ColumnChunks
  import opened ColumnReading
  import opened ChunkRoundTrips
  import opened RecordRoundTrips
  import opened RowGroups
  import opened Schemas
  import opened LogicalSchemas
  import opened SchemaIO
  import opened PeekableStreams
  import opened PageStreams
  import L = FileLayouts

  /** How headers and metadata become bytes, and are read from them. */
  datatype Format = Format(headers: HeaderCodec, metadata: L.Serializer, parse: seq<Byte> -> Option<L.FileMetaData>)
  {
    ghost predicate Valid() {
      Inverts(headers) && forall m: L.FileMetaData :: parse(metadata.file(m)) == Some(m)
    }
  }

  /** A compressor that yields whole bytes, and at most doubles what it is given, or a kilobyte more. */
  ghost predicate Moderate(codec: Codec) {
    forall raw: BitString :: |raw| == 8 * (|raw| / 8) ==>
      |codec.compress(raw)| == 8 * (|codec.compress(raw)| / 8) <= 2 * |raw| + 8192
  }

  /** A layout for each column of a writer's schema: the levels of its column writer and the type of
      its leaf. */
  function ColumnLayouts(levels: seq<(nat, nat)>, leaves: seq<WriterNode>, codecs: seq<Codec>): (layouts: seq<Layout>)
    requires |levels| == |leaves| == |codecs| && AllLeaves(leaves)
    ensures |layouts| == |leaves|
  {
    seq(|leaves|, j requires 0 <= j < |leaves| =>
      Layout(levels[j].0, levels[j].1, KindOf(leaves[j].physical, leaves[j].type_length), codecs[j]))
  }

  predicate AllLeaves(leaves: seq<WriterNode>) {
    forall j :: 0 <= j < |leaves| ==> leaves[j].PrimitiveNode?
  }

  function EncodingsOf(leaves: seq<WriterNode>): (encodings: seq<Encoding>)
    requires AllLeaves(leaves)
    ensures |encodings| == |leaves|
  {
    seq(|leaves|, j requires 0 <= j < |leaves| => leaves[j].encoding)
  }

  lemma {:induction false} LeavesAreColumns(node: WriterNode, def: nat, rep: nat)
    ensures AllLeaves(WriterLeaves(node)) && |WriterLeaves(node)| == |WriterLevels(node, def, rep)|
    decreases node
  {
    var own := def + (if node.optional then 1 else 0);
    match node
    case PrimitiveNode(_, _, _, _, _, _) =>
    case ListNode(_, _, element) => LeavesAreColumns(element, own + 1, rep + 1);
    case MapNode(_, _, key, value) =>
      LeavesAreColumns(key, own + 1, rep + 1);
      LeavesAreColumns(value, own + 1, rep + 1);
    case StructNode(_, _, fields) => FieldLeavesAreColumns(fields, own, rep);
  }

  lemma {:induction false} FieldLeavesAreColumns(fields: seq<WriterNode>, def: nat, rep: nat)
    ensures AllLeaves(WriterLeavesOf(fields)) && |WriterLeavesOf(fields)| == |WriterLevelsOf(fields, def, rep)|
    decreases fields
  {
    if fields != [] {
      LeavesAreColumns(fields[0], def, rep);
      FieldLeavesAreColumns(fields[1..], def, rep);
    }
  }

  /** The layouts of a writer's schema. */
  function LayoutsOf(fields: seq<WriterNode>, codecs: seq<Codec>): (layouts: seq<Layout>)
    requires |codecs| == |WriterLeavesOf(fields)|
    ensures |layouts| == |codecs|
  {
    FieldLeavesAreColumns(fields, 0, 0);
    ColumnLayouts(WriterLevelsOf(fields, 0, 0), WriterLeavesOf(fields), codecs)
  }

  /** The values of each type have their own size: four, eight or twelve bytes, one byte for a boolean,
      the type's length, or any number of bytes below 2^32. */
  lemma {:induction false} SizesOfTypes(physical: PhysicalType, type_length: nat, v: Atom)
    ensures Storable(KindOf(physical, type_length), v) <==>
      match physical
      case INT32 | FLOAT => |v| == 32
      case INT64 | DOUBLE => |v| == 64
      case BOOLEAN => |v| == 8
      case FIXED_LEN_BYTE_ARRAY => |v| == 8 * type_length
      case BYTE_ARRAY => |v| % 8 == 0 && |v| < 8 * 0x1_0000_0000
      case INT96 => |v| == 96
    ensures KindOf(physical, type_length).Valid() <==> (physical == FIXED_LEN_BYTE_ARRAY ==> type_length > 0)
  {
  }

  /** Whatever is put on the column of a leaf comes back if and only if its type is not BOOLEAN and,
      if it is FLOAT or DOUBLE, its encoding is plain. */
  lemma {:induction false} LeafAlwaysKeptIff(fields: seq<WriterNode>, codecs: seq<Codec>, j: nat)
    requires |codecs| == |WriterLeavesOf(fields)| && j < |codecs| && AllLeaves(WriterLeavesOf(fields))
    requires Codable(WriterLeavesOf(fields)[j].encoding)
    ensures var l, leaf := LayoutsOf(fields, codecs)[j], WriterLeavesOf(fields)[j];
      (forall steps :: Allowed(l, steps) ==> Faithful(NewCoder(l.kind, leaf.encoding), l, steps))
      <==> leaf.physical != BOOLEAN && (leaf.physical == FLOAT || leaf.physical == DOUBLE ==> leaf.encoding == PLAIN)
  {
    hide Allowed, Faithful, WriterLeavesOf, WriterLevelsOf;
    FieldLeavesAreColumns(fields, 0, 0);
    AlwaysKeptIff(LayoutsOf(fields, codecs)[j], WriterLeavesOf(fields)[j].encoding);
  }

  /** Of the leaves that can be written, all can be read back here but those with deltas. */
  lemma {:induction false} CodableIff(build: Build, leaf: WriterNode)
    requires Supported(build, leaf)
    ensures Codable(leaf.encoding) <==> leaf.encoding != DELTA_BINARY_PACKED
  {
  }

  /** No leaf is a boolean, or a floating-point number in a dictionary. */
  predicate AllSafe(leaves: seq<WriterNode>) {
    forall j :: 0 <= j < |leaves| ==>
      && leaves[j].PrimitiveNode? && leaves[j].physical != BOOLEAN
      && (leaves[j].physical == FLOAT || leaves[j].physical == DOUBLE ==> leaves[j].encoding == PLAIN)
  }

  /** Then every value is kept, whatever is put in whatever row groups. */
  lemma {:induction false} SafeIsKept(fields: seq<WriterNode>, codecs: seq<Codec>, groups: seq<seq<seq<Step>>>)
    requires |codecs| == |WriterLeavesOf(fields)| && AllLeaves(WriterLeavesOf(fields)) && Rectangular(groups, |codecs|)
    ensures AllSafe(WriterLeavesOf(fields)) ==>
      EachKept(LayoutsOf(fields, codecs), EncodingsOf(WriterLeavesOf(fields)), groups)
  {
    hide AllFaithful, WriterLeavesOf, WriterLevelsOf;
    FieldLeavesAreColumns(fields, 0, 0);
    if AllSafe(WriterLeavesOf(fields)) {
      var layouts, encodings := LayoutsOf(fields, codecs), EncodingsOf(WriterLeavesOf(fields));
      forall j | 0 <= j < |layouts|
        ensures AllFaithful(NewCoder(layouts[j].kind, encodings[j]), layouts[j], ColumnOf(groups, |layouts|, j))
      {
        ExactInAllGroups(layouts[j], encodings[j], ColumnOf(groups, |layouts|, j));
      }
    }
  }

  // ----- Writing -----

  /** A reader gets from the pages of a chunk what an encoder in the state `c` makes of the puts. */
  ghost predicate StoresChunk(l: Layout, c: Coder, steps: seq<Step>, bits: nat, chunk: seq<StoredPage>) {
    (AllSmall(chunk) ==> Stores(l, chunk, Reading(c, l, steps))) && PagesWithin(chunk, bits) && AllFormed(chunk, l)
  }

  /** So it is with every chunk of every row group. */
  ghost predicate StoresGroups(
    layouts: seq<Layout>, encodings: seq<Encoding>, groups: seq<seq<seq<Step>>>, chunks: seq<seq<seq<StoredPage>>>)
    requires |encodings| == |layouts| && Rectangular(groups, |layouts|)
  {
    && |chunks| == |groups| && Rectangular(chunks, |layouts|)
    && forall g, j :: 0 <= g < |chunks| && 0 <= j < |layouts| ==>
      StoresChunk(layouts[j], StateBefore(layouts, encodings, groups, g, j), groups[g][j],
        MostBits(layouts[j], ColumnOf(groups, |layouts|, j)), chunks[g][j])
  }

  /** The chunks of every column are encoded as what is put on it calls for. */
  predicate EncodedGroups(
    layouts: seq<Layout>, encodings: seq<Encoding>, groups: seq<seq<seq<Step>>>, chunks: seq<seq<seq<StoredPage>>>)
    requires |encodings| == |layouts| && Rectangular(groups, |layouts|)
  {
    && |chunks| == |groups| && Rectangular(chunks, |layouts|)
    && forall j :: 0 <= j < |layouts| ==>
      EncodedChunks(layouts[j], encodings[j], ColumnOf(groups, |layouts|, j), ColumnOf(chunks, |layouts|, j))
  }

  /** The chunks of all row groups, column by column, and the rows that the first column writer tells
      after each of them. */
  method WriteColumns(layouts: seq<Layout>, encodings: seq<Encoding>, groups: seq<seq<seq<Step>>>)
    returns (chunks: seq<seq<seq<StoredPage>>>, rows: seq<nat>)
    requires GroupsPuttable(layouts, encodings, groups)
    ensures if layouts == [] then rows == seq(|groups|, _ => 0) else RowsTold(layouts[0], ColumnOf(groups, |layouts|, 0), rows)
    ensures StoresGroups(layouts, encodings, groups, chunks) && EncodedGroups(layouts, encodings, groups, chunks)
  {
    hide RowsTold, EncodedChunks, Layout.Valid, Allowed, PagesFit, Stores, AllSmall, PagesWithin, AllFormed, MostBits, Reading, StateAfterGroups, AllFaithful;
    var n := |layouts|;
    var columns := [];
    rows := seq(|groups|, _ => 0);
    for j := 0 to n
      invariant if j == 0 then rows == seq(|groups|, _ => 0) else RowsTold(layouts[0], ColumnOf(groups, n, 0), rows)
      invariant |columns| == j
      invariant forall i :: 0 <= i < j ==> |columns[i]| == |groups|
      invariant forall i, g :: 0 <= i < j && 0 <= g < |groups| ==>
        StoresChunk(layouts[i], StateBefore(layouts, encodings, groups, g, i), groups[g][i],
          MostBits(layouts[i], ColumnOf(groups, n, i)), columns[i][g])
      invariant forall i :: 0 <= i < j ==> EncodedChunks(layouts[i], encodings[i], ColumnOf(groups, n, i), columns[i])
    {
      forall g | 0 <= g < |groups|
        ensures Allowed(layouts[j], ColumnOf(groups, n, j)[g])
        ensures PagesFit(StateBefore(layouts, encodings, groups, g, j), layouts[j], ColumnOf(groups, n, j)[g])
      {
        assert ColumnOf(groups, n, j)[g] == groups[g][j];
      }
      var column, told := WriteChunks(layouts[j], encodings[j], ColumnOf(groups, n, j));
      columns := columns + [column];
      if j == 0 {
        rows := told;
      }
    }
    chunks := seq(|groups|, g requires 0 <= g < |groups| => seq(n, j requires 0 <= j < n => columns[j][g]));
    assert forall j :: 0 <= j < n ==> ColumnOf(chunks, n, j) == columns[j];
  }

  predicate EachTransportable(chunks: seq<seq<StoredPage>>) {
    forall j :: 0 <= j < |chunks| ==> AllTransportable(chunks[j])
  }

  /** All pages of all row groups are whole bytes and fit their headers. */
  predicate GroupsTransportable(groups: seq<seq<seq<StoredPage>>>) {
    forall g :: 0 <= g < |groups| ==> EachTransportable(groups[g])
  }

  /** Even twice as much, and a kilobyte, would fit the pages of a column. */
  predicate Portable(l: Layout, column: seq<seq<Step>>) {
    2 * MostBits(l, column) + 8192 < PAGE_LIMIT
  }

  lemma {:induction false} PortableIsTransportable(l: Layout, column: seq<seq<Step>>, chunk: seq<StoredPage>)
    requires PagesWithin(chunk, MostBits(l, column)) && AllFormed(chunk, l) && Moderate(l.codec) && Portable(l, column)
    ensures AllTransportable(chunk)
  {
    hide MostBits;
    forall i | 0 <= i < |chunk| ensures Transportable(chunk[i]) {
      var s := chunk[i];
      assert Formed(s, l);
      var raw :| |raw| == 8 * s.uncompressed_size && s.contents == l.codec.compress(raw);
    }
  }

  function AllColumnPages(chunks: seq<seq<StoredPage>>, headers: HeaderCodec): (columns: seq<L.ColumnPages>)
    requires EachTransportable(chunks)
    ensures |columns| == |chunks|
  {
    seq(|chunks|, j requires 0 <= j < |chunks| => ColumnPagesOf(chunks[j], headers))
  }

  function AllGroupPages(groups: seq<seq<seq<StoredPage>>>, headers: HeaderCodec): (columns: seq<seq<L.ColumnPages>>)
    requires GroupsTransportable(groups)
    ensures |columns| == |groups|
  {
    seq(|groups|, g requires 0 <= g < |groups| => AllColumnPages(groups[g], headers))
  }

  /** The bytes hold the chunks of all row groups where the metadata says, with the paths of their
      leaves; and the metadata is found from the end exactly if its length fits 32 bits. */
  ghost predicate InFile(
    file: seq<Byte>, m: L.FileMetaData, leaf_paths: seq<seq<string>>, groups: seq<seq<seq<StoredPage>>>, format: Format)
  {
    && |m.row_groups| == |groups|
    && (forall g :: 0 <= g < |groups| ==>
      && |m.row_groups[g]| == |groups[g]| && L.HasPaths(m.row_groups[g], leaf_paths)
      && forall j :: 0 <= j < |groups[g]| ==> StoredAt(file, m.row_groups[g][j], groups[g][j], format))
    && (|format.metadata.file(m)| < 0x1_0000_0000 <==> L.ReadMetadata(file) == Some(format.metadata.file(m)))
  }

  /** Write the row groups of a file: all but the last are flushed, the last one when it is closed. */
  method WriteFile(
    schema: seq<SchemaElement>, leaf_paths: seq<seq<string>>, groups: seq<seq<seq<StoredPage>>>, rows: seq<nat>, format: Format)
    returns (file: seq<Byte>, m: L.FileMetaData)
    requires groups != [] && |rows| == |groups| && Rectangular(groups, |leaf_paths|) && GroupsTransportable(groups)
    ensures m.schema == schema && InFile(file, m, leaf_paths, groups, format)
    ensures m.row_counts == rows && m.num_rows == L.Sum(rows)
  {
    hide EachTransportable, L.Bytes, L.Delimited, L.AllChunks, L.AllHeld, L.ReadMetadata, L.HasPaths, StoredAt, ColumnPagesOf,
      AllColumnPages, AreGroups;
    var w := new L.SyncWriter(schema, leaf_paths, format.metadata);
    ghost var held := AllGroupPages(groups, format.headers);
    var n := |groups| - 1;
    NoGroupsYet(held, groups, leaf_paths);
    for g := 0 to n
      invariant w.Valid() && w.held == L.AllHeld(held[..g]) && AreGroups(w.row_groups, groups, g, leaf_paths)
      invariant |w.row_groups| == g && w.row_counts == rows[..g]
    {
      ghost var before := w.row_groups;
      w.FlushRowGroup(AllColumnPages(groups[g], format.headers), rows[g]);
      MoreGroups(held, before, w.row_groups, groups, g, leaf_paths);
    }
    ghost var before := w.row_groups;
    w.Close(AllColumnPages(groups[n], format.headers), rows[n]);
    assert rows[..n] + [rows[n]] == rows;
    MoreGroups(held, before, w.row_groups, groups, n, leaf_paths);
    assert held[..n + 1] == held;
    file, m := w.sink, w.MetaData();
    EachHasPaths(m.row_groups, groups, leaf_paths, format.headers);
    L.DelimitedGroups(file, m.row_groups, held, format.metadata);
    AllStoredAt(file, m, groups, format);
  }

  /** The first `n` row groups have a chunk for every column, with the path of its leaf. */
  predicate AreGroups(row_groups: seq<L.RowGroup>, groups: seq<seq<seq<StoredPage>>>, n: nat, leaf_paths: seq<seq<string>>) {
    && |row_groups| == n <= |groups|
    && forall i :: 0 <= i < n ==> |row_groups[i]| == |groups[i]| && L.HasPaths(row_groups[i], leaf_paths)
  }

  lemma {:induction false} NoGroupsYet(held: seq<seq<L.ColumnPages>>, groups: seq<seq<seq<StoredPage>>>, leaf_paths: seq<seq<string>>)
    ensures L.AllHeld(held[..0]) == [] && AreGroups([], groups, 0, leaf_paths)
  {
  }

  lemma {:induction false} MoreGroups(
    held: seq<seq<L.ColumnPages>>, before: seq<L.RowGroup>, after: seq<L.RowGroup>, groups: seq<seq<seq<StoredPage>>>, n: nat,
    leaf_paths: seq<seq<string>>)
    requires AreGroups(before, groups, n, leaf_paths) && n < |groups| == |held|
    requires |after| == n + 1 && after[..n] == before && |after[n]| == |groups[n]| && L.HasPaths(after[n], leaf_paths)
    ensures AreGroups(after, groups, n + 1, leaf_paths) && L.AllHeld(held[..n + 1]) == L.AllHeld(held[..n]) + held[n]
  {
    hide L.HasPaths;
    assert held[..n + 1][..n] == held[..n];
    forall i | 0 <= i < n ensures after[i] == before[i] {
      assert after[..n][i] == before[i];
    }
  }

  lemma {:induction false} EachHasPaths(
    row_groups: seq<L.RowGroup>, groups: seq<seq<seq<StoredPage>>>, leaf_paths: seq<seq<string>>, headers: HeaderCodec)
    requires GroupsTransportable(groups) && AreGroups(row_groups, groups, |groups|, leaf_paths)
    ensures |row_groups| == |groups|
    ensures forall g :: 0 <= g < |groups| ==>
      |row_groups[g]| == |groups[g]| == |AllGroupPages(groups, headers)[g]| && L.HasPaths(row_groups[g], leaf_paths)
  {
    hide L.HasPaths, ColumnPagesOf;
  }

  lemma {:induction false} AllStoredAt(file: seq<Byte>, m: L.FileMetaData, groups: seq<seq<seq<StoredPage>>>, format: Format)
    requires GroupsTransportable(groups)
    requires L.GroupsAt(file, m.row_groups, AllGroupPages(groups, format.headers), format.metadata)
    ensures forall g, j :: 0 <= g < |groups| && 0 <= j < |groups[g]| ==> StoredAt(file, m.row_groups[g][j], groups[g][j], format)
  {
    hide AllTransportable, L.At, ColumnPagesOf;
  }

  /** The pages of a chunk are in the file where its metadata says. */
  ghost predicate StoredAt(file: seq<Byte>, cc: L.ColumnChunk, chunk: seq<StoredPage>, format: Format)
  {
    AllTransportable(chunk) && L.At(file, cc, ColumnPagesOf(chunk, format.headers), format.metadata)
  }

  /** The data pages of such a chunk are behind its dictionary page, if there is one in front, and the
      metadata tells their place, and that of the dictionary page exactly if there is one. */
  lemma {:induction false} OffsetsOfPages(
    file: seq<Byte>, cc: L.ColumnChunk, chunk: seq<StoredPage>, dictionary: bool, format: Format)
    requires StoredAt(file, cc, chunk, format) && InFrontOnly(chunk, dictionary)
    ensures var m := cc.meta_data;
      && m.dictionary_page_offset == (if dictionary then Some(m.Start()) else None)
      && m.Start() <= m.data_page_offset <= cc.file_offset <= |file|
      && file[m.Start()..m.data_page_offset] == L.Bytes(AllToBytes(if dictionary then chunk[..1] else [], format.headers))
      && file[m.data_page_offset..cc.file_offset] == L.Bytes(AllToBytes(if dictionary then chunk[1..] else chunk, format.headers))
  {
    hide Transportable, ToBytes, L.Bytes;
    var bytes := AllToBytes(chunk, format.headers);
    if dictionary {
      assert bytes[1..] == AllToBytes(chunk[1..], format.headers);
      assert [bytes[0]] == AllToBytes(chunk[..1], format.headers);
    }
    assert AllToBytes([], format.headers) == [];
  }

  /** The metadata tells a dictionary page for the columns with a dictionary, and for no others. */
  ghost predicate DictionariesTold(m: L.FileMetaData, encodings: seq<Encoding>) {
    forall g, j :: 0 <= g < |m.row_groups| && 0 <= j < |m.row_groups[g]| && j < |encodings| ==>
      (m.row_groups[g][j].meta_data.dictionary_page_offset.Some? <==> encodings[j] == RLE_DICTIONARY)
  }

  lemma {:induction false} AllDictionariesTold(
    file: seq<Byte>, m: L.FileMetaData, layouts: seq<Layout>, encodings: seq<Encoding>, groups: seq<seq<seq<Step>>>,
    chunks: seq<seq<seq<StoredPage>>>, leaf_paths: seq<seq<string>>, format: Format)
    requires |encodings| == |layouts| && Rectangular(groups, |layouts|) && EncodedGroups(layouts, encodings, groups, chunks)
    requires InFile(file, m, leaf_paths, chunks, format)
    ensures DictionariesTold(m, encodings)
  {
    hide StoredAt, InFrontOnly, DataEncodings, ChunkEncodings, L.HasPaths, L.ReadMetadata;
    forall g, j | 0 <= g < |m.row_groups| && 0 <= j < |m.row_groups[g]| && j < |encodings|
      ensures m.row_groups[g][j].meta_data.dictionary_page_offset.Some? <==> encodings[j] == RLE_DICTIONARY
    {
      assert ColumnOf(chunks, |layouts|, j)[g] == chunks[g][j];
      OffsetsOfPages(file, m.row_groups[g][j], chunks[g][j], encodings[j] == RLE_DICTIONARY, format);
    }
  }

  // ----- Reading -----

  /** Read the pages of a column chunk from where the metadata says. */
  method LoadPages(file: seq<Byte>, cc: L.ColumnChunk, format: Format, ghost chunk: seq<StoredPage>)
    returns (ok: bool, stored: seq<StoredPage>)
    requires format.Valid() && StoredAt(file, cc, chunk, format)
    ensures ok && stored == chunk
  {
    hide AllTransportable, L.Bytes, L.At, Inverts, Sane, PagesIn;
    var m := cc.meta_data;
    L.WholeChunk(file, cc, ColumnPagesOf(chunk, format.headers), format.metadata);
    var source := new Source(file[m.Start()..m.Start() + m.total_compressed_size]);
    var stream := new PeekableStream(source);
    var page_reader := new PageReader(stream, format.headers);
    PagesAreFound(format.headers, chunk);
    ok, stored := page_reader.ReadPages();
  }

  /** Open a column chunk and read it in batches. */
  method LoadColumn(file: seq<Byte>, cc: L.ColumnChunk, layout: Layout, format: Format, batch_size: nat,
                    ghost chunk: seq<StoredPage>, ghost ts: seq<Triplet>)
    returns (ok: bool, pages: seq<Page>)
    requires format.Valid() && StoredAt(file, cc, chunk, format) && layout.Valid() && Stores(layout, chunk, ts) && batch_size > 0
    ensures ok && AllInRange(pages, layout.def_level, layout.rep_level)
    ensures AllTriplets(pages, layout.def_level, layout.rep_level) == ts
  {
    hide Layout.Valid, StoredAt, Format.Valid, HoldsAll, Triplets, CountMax, InRange, ColumnChunkReader.Valid,
      ColumnChunkReader.Rest;
    var stored;
    ok, stored := LoadPages(file, cc, format, chunk);
    ghost var held :| HoldsAll(chunk, layout, None, held)
      && AllInRange(held, layout.def_level, layout.rep_level) && AllTriplets(held, layout.def_level, layout.rep_level) == ts;
    var reader := new ColumnChunkReader(layout, stored, held);
    pages := LoadAll(reader, batch_size);
  }

  /** The primitives of the reader's schema, with the types and compressors of their columns. */
  function ReaderLayout(prim: Node, written: Layout): Layout
    requires prim.Primitive?
  {
    Layout(prim.def_level, prim.rep_level, written.kind, written.codec)
  }

  /** The chunks of a row group are in the file, and a reader gets these columns from them. */
  ghost predicate GroupStored(
    file: seq<Byte>, group: L.RowGroup, layouts: seq<Layout>, chunks: seq<seq<StoredPage>>, cols: Columns, format: Format)
  {
    && |group| == |chunks| == |cols| == |layouts|
    && forall j :: 0 <= j < |layouts| ==>
      layouts[j].Valid() && StoredAt(file, group[j], chunks[j], format) && Stores(layouts[j], chunks[j], cols[j])
  }

  method LoadColumns(file: seq<Byte>, group: L.RowGroup, prims: seq<Node>, layouts: seq<Layout>, format: Format, batch_size: nat,
                     ghost chunks: seq<seq<StoredPage>>, ghost cols: Columns)
    returns (ok: bool, loaded: seq<seq<Page>>)
    requires format.Valid() && batch_size > 0 && Matches(prims, layouts)
    requires GroupStored(file, group, layouts, chunks, cols, format)
    ensures ok && F.HasColumns(prims, loaded) && F.RowGroup(prims, loaded) == cols
  {
    hide Layout.Valid, StoredAt, Stores, AllInRange, AllTriplets, Format.Valid;
    ok, loaded := true, [];
    for j := 0 to |layouts|
      invariant ok && |loaded| == j
      invariant forall i :: 0 <= i < j ==>
        AllInRange(loaded[i], layouts[i].def_level, layouts[i].rep_level)
        && AllTriplets(loaded[i], layouts[i].def_level, layouts[i].rep_level) == cols[i]
    {
      assert ReaderLayout(prims[j], layouts[j]) == layouts[j];
      var pages;
      ok, pages := LoadColumn(file, group[j], ReaderLayout(prims[j], layouts[j]), format, batch_size, chunks[j], cols[j]);
      loaded := loaded + [pages];
    }
    Collected(layouts, loaded, cols, prims, true);
  }

  /** The schema and the row groups that the metadata at the end of a file tells. */
  method OpenFile(file: seq<Byte>, format: Format, ghost m: L.FileMetaData)
    returns (meta: Option<L.FileMetaData>, fields: Option<seq<Node>>)
    requires format.Valid() && L.ReadMetadata(file) == Some(format.metadata.file(m))
    ensures meta == Some(m) && fields == ReadSchema(m.schema)
  {
    hide L.ReadMetadata, ReadSchema;
    meta, fields := None, None;
    var bytes := L.ReadMetadata(file);
    meta := format.parse(bytes.value);
    fields := ReadFlat(meta.value.schema);
  }

  /** Open the file and read its row groups one after another: from the bytes alone, knowing only the
      kinds and compressors of the columns, the consumer gets the calls of the records in it. */
  method ReadFile(
    file: seq<Byte>, layouts: seq<Layout>, format: Format, read_size: nat, batch_size: nat, c: Consumer,
    ghost m: L.FileMetaData, ghost tree: seq<Node>, ghost chunks: seq<seq<seq<StoredPage>>>, ghost cols: seq<Columns>,
    ghost read: seq<seq<Value>>)
    returns (ok: bool)
    requires format.Valid() && read_size > 0 && batch_size > 0 && L.ReadMetadata(file) == Some(format.metadata.file(m))
    requires ReadSchema(m.schema) == Some(tree) && AllLevelled(tree, 0, 0) && A.Readable(tree) && Matches(PrimitivesOf(tree), layouts)
    requires |m.row_groups| == |chunks| == |cols| == |read| && EachRecords(tree, read)
    requires forall g :: 0 <= g < |cols| ==>
      GroupStored(file, m.row_groups[g], layouts, chunks[g], cols[g], format) && ShredRecords(tree, read[g]) == cols[g]
    modifies c
    ensures AllRecords(tree, Flatten(read))
    ensures F.Supported(PrimitivesOf(tree)) ==> ok && c.calls == old(c.calls) + SpellRecords(tree, Flatten(read))
  {
    hide GroupStored, AllLevelled, A.Readable, ReadSchema, PrimitivesOf, Matches, AllRecords, ShredRecords, SpellRecords,
      F.HasColumns, F.RowGroup, F.Supported, Format.Valid, L.ReadMetadata;
    var meta, fields := OpenFile(file, format, m);
    ok := true;
    FlattenRecords(tree, read);
    NothingSpelled(tree, read, c.calls);
    for g := 0 to |meta.value.row_groups|
      invariant AllRecords(tree, Flatten(read[..g]))
      invariant F.Supported(PrimitivesOf(tree)) ==> ok && c.calls == old(c.calls) + SpellRecords(tree, Flatten(read[..g]))
    {
      SpellGroup(tree, read, g, old(c.calls));
      if ok {
        var loaded;
        ok, loaded := LoadColumns(file, meta.value.row_groups[g], PrimitivesOf(fields.value), layouts, format, read_size,
          chunks[g], cols[g]);
        if ok {
          ok := F.ReadRowGroup(fields.value, loaded, batch_size, c, read[g]);
        }
      }
    }
    assert read[..|read|] == read;
  }

  lemma {:induction false} NothingSpelled(fields: seq<Node>, read: seq<seq<Value>>, before: seq<Event>)
    ensures AllRecords(fields, Flatten(read[..0])) && before == before + SpellRecords(fields, Flatten(read[..0]))
  {
  }

  lemma {:induction false} SpellGroup(fields: seq<Node>, read: seq<seq<Value>>, g: nat, before: seq<Event>)
    requires g < |read| && AllRecords(fields, Flatten(read[..g])) && AllRecords(fields, read[g])
    ensures AllRecords(fields, Flatten(read[..g + 1]))
    ensures before + SpellRecords(fields, Flatten(read[..g])) + SpellRecords(fields, read[g])
      == before + SpellRecords(fields, Flatten(read[..g + 1]))
  {
    hide AllRecords, SpellRecords;
    assert read[..g + 1][..g] == read[..g];
    SpellBoth(fields, Flatten(read[..g]), read[g]);
    Associate(before, SpellRecords(fields, Flatten(read[..g])), SpellRecords(fields, read[g]));
  }

  // ----- All the way -----

  /** What a writer's schema, its columns and the records on them have to be like: the schema is one
      that both sides take, without empty structs, and the puts of each row group are those of
      shredded records. */
  ghost predicate Written(
    build: Build, fields: seq<WriterNode>, codecs: seq<Codec>, groups: seq<seq<seq<Step>>>, records: seq<seq<Value>>)
  {
    var tree := LogicalFields(fields, 0, 0, 0);
    && AllKeysRequired(fields) && AllWritable(build, fields) && AllLiftable(fields) && fields != [] && AllSolid(fields)
    && |codecs| == |WriterLeavesOf(fields)| && AllLeaves(WriterLeavesOf(fields))
    && GroupsPuttable(LayoutsOf(fields, codecs), EncodingsOf(WriterLeavesOf(fields)), groups)
    && groups != [] && |records| == |groups| && EachRecords(tree, records)
    && forall g :: 0 <= g < |groups| ==> PutColumns(LayoutsOf(fields, codecs), groups[g]) == ShredRecords(tree, records[g])
  }

  /** Records of the same shape, with the values that the encoders make of those put. */
  ghost predicate Arrive(
    build: Build, fields: seq<WriterNode>, codecs: seq<Codec>, groups: seq<seq<seq<Step>>>, records: seq<seq<Value>>,
    read: seq<seq<Value>>)
    requires Written(build, fields, codecs, groups, records)
  {
    var tree, layouts, encodings := LogicalFields(fields, 0, 0, 0), LayoutsOf(fields, codecs), EncodingsOf(WriterLeavesOf(fields));
    && |read| == |records| && EachRecords(tree, read) && AllRecords(tree, Flatten(read)) && AllRecords(tree, Flatten(records))
    && forall g :: 0 <= g < |groups| ==>
      |read[g]| == |records[g]| && ShredRecords(tree, read[g]) == GroupRead(layouts, encodings, groups, g)
  }

  /** The columns of the reader's tree are those of the writer. */
  lemma {:induction false} TreeMatches(fields: seq<WriterNode>, codecs: seq<Codec>)
    requires |codecs| == |WriterLeavesOf(fields)| && AllLiftable(fields) && fields != [] && AllSolid(fields)
    ensures var tree := LogicalFields(fields, 0, 0, 0);
      && Matches(PrimitivesOf(tree), LayoutsOf(fields, codecs)) && AllLevelled(tree, 0, 0) && A.Readable(tree)
      && ReadSchema(Preorder(RootShape(fields))) == Some(tree)
      && |LeafPathsOf(fields, [])| == |codecs| > 0
  {
    hide ReadSchema, Preorder, RootShape, LogicalFields, AllLiftable, AllSolid, PrimitivesOf, WriterLevelsOf,
      LeafPathsOf, AllLevelled,
      AnnotateAll, ShapesOf, RawLeavesOf, LeafCountOf;
    SchemaReadsBack(fields, []);
    SolidIsReadable(fields);
    FieldLeavesAreColumns(fields, 0, 0);
    FieldColumnsAgree(fields, 0, 0, [], 0);
    LeadIsColumn(LogicalFields(fields, 0, 0, 0)[0]);
    assert Preorder(RootShape(fields)) + [] == Preorder(RootShape(fields));
  }

  lemma {:induction false} AllStored(
    layouts: seq<Layout>, encodings: seq<Encoding>, groups: seq<seq<seq<Step>>>, chunks: seq<seq<seq<StoredPage>>>, g: nat)
    requires |encodings| == |layouts| && Rectangular(groups, |layouts|) && StoresGroups(layouts, encodings, groups, chunks)
    requires g < |chunks| && EachTransportable(chunks[g])
    ensures forall j :: 0 <= j < |layouts| ==> Stores(layouts[j], chunks[g][j], GroupRead(layouts, encodings, groups, g)[j])
  {
    hide Stores, PagesWithin, AllFormed, Reading, StateBefore, MostBits;
    forall j | 0 <= j < |layouts| ensures Stores(layouts[j], chunks[g][j], GroupRead(layouts, encodings, groups, g)[j]) {
      var chunk := chunks[g][j];
      forall i | 0 <= i < |chunk| ensures Small(chunk[i]) {
        assert Transportable(chunk[i]);
      }
      assert StoresChunk(layouts[j], StateBefore(layouts, encodings, groups, g, j), groups[g][j],
        MostBits(layouts[j], ColumnOf(groups, |layouts|, j)), chunk);
    }
  }

  lemma {:induction false} AllPortable(
    layouts: seq<Layout>, encodings: seq<Encoding>, groups: seq<seq<seq<Step>>>, chunks: seq<seq<seq<StoredPage>>>)
    requires |encodings| == |layouts| && Rectangular(groups, |layouts|) && StoresGroups(layouts, encodings, groups, chunks)
    requires forall j :: 0 <= j < |layouts| ==> Moderate(layouts[j].codec) && Portable(layouts[j], ColumnOf(groups, |layouts|, j))
    ensures GroupsTransportable(chunks)
  {
    hide Moderate, Portable, PagesWithin, AllFormed, AllTransportable, Stores, AllSmall, Reading, MostBits, StateBefore;
    forall g, j | 0 <= g < |chunks| && 0 <= j < |layouts| ensures AllTransportable(chunks[g][j]) {
      assert StoresChunk(layouts[j], StateBefore(layouts, encodings, groups, g, j), groups[g][j],
        MostBits(layouts[j], ColumnOf(groups, |layouts|, j)), chunks[g][j]);
      PortableIsTransportable(layouts[j], ColumnOf(groups, |layouts|, j), chunks[g][j]);
    }
  }

  /** What a reader gets from each row group. */
  function AllRead(layouts: seq<Layout>, encodings: seq<Encoding>, groups: seq<seq<seq<Step>>>): (r: seq<Columns>)
    requires |encodings| == |layouts| && Rectangular(groups, |layouts|)
    ensures |r| == |groups|
  {
    seq(|groups|, g requires 0 <= g < |groups| => GroupRead(layouts, encodings, groups, g))
  }

  /** What was written is what the reader of the file needs. */
  lemma {:induction false} EachStored(
    file: seq<Byte>, m: L.FileMetaData, layouts: seq<Layout>, encodings: seq<Encoding>, groups: seq<seq<seq<Step>>>,
    chunks: seq<seq<seq<StoredPage>>>, leaf_paths: seq<seq<string>>, format: Format)
    requires GroupsPuttable(layouts, encodings, groups) && StoresGroups(layouts, encodings, groups, chunks)
    requires GroupsTransportable(chunks) && InFile(file, m, leaf_paths, chunks, format)
    ensures |m.row_groups| == |chunks| == |groups|
    ensures |format.metadata.file(m)| < 0x1_0000_0000 ==> L.ReadMetadata(file) == Some(format.metadata.file(m))
    ensures forall g :: 0 <= g < |groups| ==>
      GroupStored(file, m.row_groups[g], layouts, chunks[g], AllRead(layouts, encodings, groups)[g], format)
  {
    hide GroupRead, StoresChunk, Stores, StoredAt, EachTransportable, Layout.Valid, L.HasPaths, L.ReadMetadata;
    forall g | 0 <= g < |groups|
      ensures GroupStored(file, m.row_groups[g], layouts, chunks[g], AllRead(layouts, encodings, groups)[g], format)
    {
      AllStored(layouts, encodings, groups, chunks, g);
    }
  }

  /** Set up a file: the layouts of its column writers, the flat schema and the leaf paths. */
  method SetUp(build: Build, fields: seq<WriterNode>, codecs: seq<Codec>)
    returns (layouts: seq<Layout>, elements: seq<SchemaElement>, leaf_paths: seq<seq<string>>)
    requires AllKeysRequired(fields) && AllWritable(build, fields) && |codecs| == |WriterLeavesOf(fields)|
    ensures layouts == LayoutsOf(fields, codecs) && elements == Preorder(RootShape(fields)) && leaf_paths == LeafPathsOf(fields, [])
  {
    hide AllKeysRequired, AllWritable, Preorder, RootShape, LeafPathsOf, WriterLevelsOf, WriterLeavesOf, ColumnLayouts;
    var flat := WriteSchema(fields);
    elements, leaf_paths := flat.value.0, flat.value.1;
    var writer := new FileWriter(build);
    var ok := writer.InitFields(fields, 0, 0);
    assert ok && [] + WriterLevelsOf(fields, 0, 0) == WriterLevelsOf(fields, 0, 0);
    FieldLeavesAreColumns(fields, 0, 0);
    layouts := ColumnLayouts(writer.writers, WriterLeavesOf(fields), codecs);
  }

  lemma {:induction false} OfColumns(layouts: seq<Layout>, encodings: seq<Encoding>, groups: seq<seq<seq<Step>>>)
    requires GroupsPuttable(layouts, encodings, groups)
    ensures |encodings| == |layouts| && Rectangular(groups, |layouts|)
  {
  }

  lemma {:induction false} PortableGroups(
    fields: seq<WriterNode>, codecs: seq<Codec>, groups: seq<seq<seq<Step>>>, chunks: seq<seq<seq<StoredPage>>>)
    requires |codecs| == |WriterLeavesOf(fields)| && AllLeaves(WriterLeavesOf(fields))
    requires Rectangular(groups, |codecs|)
    requires StoresGroups(LayoutsOf(fields, codecs), EncodingsOf(WriterLeavesOf(fields)), groups, chunks)
    ensures |chunks| == |groups| && Rectangular(chunks, |codecs|)
    ensures var layouts := LayoutsOf(fields, codecs);
      (forall j :: 0 <= j < |layouts| ==> Moderate(codecs[j]) && Portable(layouts[j], ColumnOf(groups, |layouts|, j)))
        ==> GroupsTransportable(chunks)
  {
    hide Moderate, Portable, WriterLeavesOf, WriterLevelsOf, StoresChunk, GroupsTransportable;
    var layouts := LayoutsOf(fields, codecs);
    FieldLeavesAreColumns(fields, 0, 0);
    if forall j :: 0 <= j < |layouts| ==> Moderate(codecs[j]) && Portable(layouts[j], ColumnOf(groups, |layouts|, j)) {
      AllPortable(layouts, EncodingsOf(WriterLeavesOf(fields)), groups, chunks);
    }
  }

  // ----- Rows -----

  /** For each row group the number of its records and of those in all groups before it. */
  function RowsSoFar(records: seq<seq<Value>>): (rows: seq<nat>)
    ensures |rows| == |records|
  {
    seq(|records|, g requires 0 <= g < |records| => |Flatten(records[..g + 1])|)
  }

  /** The rows told by the first column are those of the records so far. */
  lemma {:induction false} RowsOfGroups(
    tree: seq<Node>, layouts: seq<Layout>, groups: seq<seq<seq<Step>>>, records: seq<seq<Value>>, rows: seq<nat>)
    requires layouts != [] && Rectangular(groups, |layouts|) && |records| == |groups| && EachRecords(tree, records)
    requires forall g :: 0 <= g < |groups| ==> PutColumns(layouts, groups[g]) == ShredRecords(tree, records[g])
    requires RowsTold(layouts[0], ColumnOf(groups, |layouts|, 0), rows)
    ensures rows == RowsSoFar(records)
  {
    hide Rows, ShredRecords, Flatten;
    forall g | 0 <= g < |rows| ensures rows[g] == |Flatten(records[..g + 1])| {
      RowsInFirst(tree, layouts, groups, records, g + 1);
    }
  }

  lemma {:induction false} RowsInFirst(
    tree: seq<Node>, layouts: seq<Layout>, groups: seq<seq<seq<Step>>>, records: seq<seq<Value>>, n: nat)
    requires layouts != [] && Rectangular(groups, |layouts|) && |records| == |groups| && EachRecords(tree, records)
    requires forall g :: 0 <= g < |groups| ==> PutColumns(layouts, groups[g]) == ShredRecords(tree, records[g])
    requires n <= |groups|
    ensures RowsPut(layouts[0], ColumnOf(groups, |layouts|, 0)[..n]) == |Flatten(records[..n])|
  {
    hide Rows, ShredRecords;
    var column := ColumnOf(groups, |layouts|, 0);
    if n > 0 {
      RowsInFirst(tree, layouts, groups, records, n - 1);
      assert column[..n][..n - 1] == column[..n - 1] && records[..n][..n - 1] == records[..n - 1];
      RowsOfRecords(tree, records[n - 1]);
      assert PutColumns(layouts, groups[n - 1])[0] == Put(layouts[0], column[n - 1]);
    }
  }

  /** The rows recorded for all row groups are those of the records if and only if all groups but the
      last are empty. */
  lemma {:induction false} TotalRowsRightIff(records: seq<seq<Value>>)
    ensures L.Sum(RowsSoFar(records)) == |Flatten(records)| <==> forall g :: 0 <= g < |records| - 1 ==> records[g] == []
  {
    hide RowsSoFar;
    if records != [] {
      RowsOfLast(records);
      NoRowsIff(records[..|records| - 1]);
    }
  }

  lemma {:induction false} RowsOfLast(records: seq<seq<Value>>)
    requires records != []
    ensures L.Sum(RowsSoFar(records)) == L.Sum(RowsSoFar(records[..|records| - 1])) + |Flatten(records)|
  {
    hide Flatten;
    var front := records[..|records| - 1];
    assert records[..|records|] == records;
    assert RowsSoFar(records)[..|records| - 1] == RowsSoFar(front) by {
      forall g | 0 <= g < |front| ensures RowsSoFar(records)[g] == RowsSoFar(front)[g] {
        assert records[..g + 1] == front[..g + 1];
      }
    }
  }

  lemma {:induction false} NoRowsIff(records: seq<seq<Value>>)
    ensures L.Sum(RowsSoFar(records)) == 0 <==> forall g :: 0 <= g < |records| ==> records[g] == []
  {
    if records != [] {
      var n := |records| - 1;
      RowsOfLast(records);
      NoRowsIff(records[..n]);
      RowsUpTo(records, n);
      assert records[..n + 1] == records;
    }
  }

  /** The rows recorded are those of each row group if and only if all groups but the last are empty:
      the count goes on from group to group. */
  lemma {:induction false} RowCountsRightIff(records: seq<seq<Value>>)
    ensures (forall g :: 0 <= g < |records| ==> RowsSoFar(records)[g] == |records[g]|)
      <==> forall g :: 0 <= g < |records| - 1 ==> records[g] == []
  {
    hide RowsSoFar;
    forall g | 0 <= g < |records|
      ensures RowsSoFar(records)[g] == |Flatten(records[..g])| + |records[g]|
      ensures |Flatten(records[..g])| == 0 <==> forall h :: 0 <= h < g ==> records[h] == []
    {
      RowsUpTo(records, g);
    }
    if records != [] {
      var n := |records| - 1;
      assert RowsSoFar(records)[n] == |Flatten(records[..n])| + |records[n]|;
    }
  }

  lemma {:induction false} RowsUpTo(records: seq<seq<Value>>, g: nat)
    requires g < |records|
    ensures RowsSoFar(records)[g] == |Flatten(records[..g])| + |records[g]|
    ensures |Flatten(records[..g])| == 0 <==> forall h :: 0 <= h < g ==> records[h] == []
  {
    assert records[..g + 1][..g] == records[..g];
    if g > 0 {
      RowsUpTo(records, g - 1);
      assert records[..g][..g - 1] == records[..g - 1];
    }
  }

  /** Records survive a file. Whatever the writer's schema, its encodings and compressors, however the
      records are cut into row groups and pages, and in whatever batches and chunks bytes are read:
      if the pages fit their headers, then the file holds them where its metadata says; and if the
      metadata fits its length, then the reader gets the schema back from the bytes, and the consumer
      the calls that spell records of the same shape with the values that the encoders make of those
      put. They are the records that were written if and only if every value is kept. */
  method FileSurvives(
    build: Build, fields: seq<WriterNode>, codecs: seq<Codec>, groups: seq<seq<seq<Step>>>, format: Format,
    read_size: nat, batch_size: nat, c: Consumer, ghost records: seq<seq<Value>>)
    returns (chunks: seq<seq<seq<StoredPage>>>, file: seq<Byte>, m: L.FileMetaData, ok: bool, ghost read: seq<seq<Value>>)
    requires Written(build, fields, codecs, groups, records) && format.Valid() && read_size > 0 && batch_size > 0
    modifies c
    ensures var layouts, encodings := LayoutsOf(fields, codecs), EncodingsOf(WriterLeavesOf(fields));
      && StoresGroups(layouts, encodings, groups, chunks) && EncodedGroups(layouts, encodings, groups, chunks)
      && ((forall j :: 0 <= j < |layouts| ==> Moderate(codecs[j]) && Portable(layouts[j], ColumnOf(groups, |layouts|, j)))
        ==> GroupsTransportable(chunks))
    ensures GroupsTransportable(chunks) ==>
      && m.schema == Preorder(RootShape(fields)) && InFile(file, m, LeafPathsOf(fields, []), chunks, format)
      && Parse(m.schema).Parsed?
      && AreColumns(RawColumns(m.schema), WriterLeavesOf(fields), WriterLevelsOf(fields, 0, 0), LeafPathsOf(fields, []), 0)
    ensures GroupsTransportable(chunks) ==>
      && m.row_counts == RowsSoFar(records) && m.num_rows == L.Sum(RowsSoFar(records))
      && DictionariesTold(m, EncodingsOf(WriterLeavesOf(fields)))
    ensures Arrive(build, fields, codecs, groups, records, read)
    ensures var tree, layouts, encodings := LogicalFields(fields, 0, 0, 0), LayoutsOf(fields, codecs), EncodingsOf(WriterLeavesOf(fields));
      && (GroupsTransportable(chunks) && |format.metadata.file(m)| < 0x1_0000_0000 && F.Supported(PrimitivesOf(tree)) ==>
        && ok && c.calls == old(c.calls) + SpellRecords(tree, Flatten(read))
        && (c.calls == old(c.calls) + SpellRecords(tree, Flatten(records)) <==> EachKept(layouts, encodings, groups)))
      && (AllSafe(WriterLeavesOf(fields)) ==> EachKept(layouts, encodings, groups))
  {
    hide GroupsPuttable, AllKeysRequired, AllWritable, AllLiftable, AllSolid, LogicalFields, AllLevelled, A.Readable, PutColumns,
      GroupRead, ShredRecords, SpellRecords, AllRecords, PrimitivesOf, EachKept, ReadSchema, Preorder, RootShape, LeafPathsOf,
      WriterLevelsOf, WriterLeavesOf, Matches, F.Supported, Format.Valid, StoresGroups, GroupsTransportable, InFile, GroupStored,
      Moderate, Portable, LayoutsOf, EncodingsOf, AllLeaves, AreColumns, RawColumns, Parse, EncodedGroups, AllSafe,
      DictionariesTold;
    ghost var tree := LogicalFields(fields, 0, 0, 0);
    TreeMatches(fields, codecs);
    RawColumnsReadBack(fields);
    var layouts, elements, leaf_paths := SetUp(build, fields, codecs);
    var encodings := EncodingsOf(WriterLeavesOf(fields));
    OfColumns(layouts, encodings, groups);
    SafeIsKept(fields, codecs, groups);
    read := RecordsRead(tree, layouts, encodings, groups, records);
    SameCallsIffKept(tree, layouts, encodings, groups, records, read, c.calls);
    var rows;
    chunks, rows := WriteColumns(layouts, encodings, groups);
    RowsOfGroups(tree, layouts, groups, records, rows);
    PortableGroups(fields, codecs, groups, chunks);
    file, m, ok := [], L.FileMetaData(elements, [], [], 0), false;
    if GroupsTransportable(chunks) {
      ghost var cols := AllRead(layouts, encodings, groups);
      file, m := WriteFile(elements, leaf_paths, chunks, rows, format);
      AllDictionariesTold(file, m, layouts, encodings, groups, chunks, leaf_paths, format);
      if |format.metadata.file(m)| < 0x1_0000_0000 {
        EachStored(file, m, layouts, encodings, groups, chunks, leaf_paths, format);
        ok := ReadFile(file, layouts, format, read_size, batch_size, c, m, tree, chunks, cols, read);
      }
    }
  }
}
