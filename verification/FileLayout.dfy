/**
The layout of a file: where the pages of each column chunk go, what the metadata records about
that, and how the metadata is found from the end of the file.
 */
module FileLayouts {
  import opened Options
  import opened Bits
  import opened ByteStrings
  import opened Schemas

  const PAR1: seq<Byte> := [0x50, 0x41, 0x52, 0x31]

  /** A 32-bit number in memory, as far as it fits. */
  function Le32(n: nat): (b: seq<Byte>)
    ensures |b| == 4
  {
    [(n % 256) as Byte, (n / 256 % 256) as Byte, (n / 65536 % 256) as Byte, (n / 16777216 % 256) as Byte]
  }

  function FromLe32(b: seq<Byte>): nat
    requires |b| == 4
  {
    b[0] as nat + 256 * b[1] as nat + 65536 * b[2] as nat + 16777216 * b[3] as nat
  }

  lemma {:induction false} Le32RoundTrip(n: nat)
    ensures FromLe32(Le32(n)) == n % 0x1_0000_0000
  {
    var a, b, c, d := n % 256, n / 256 % 256, n / 65536 % 256, n / 16777216 % 256;
    var x, y, z := n / 256, n / 65536, n / 16777216;
    QuotientUnique(n, 65536, x / 256, 256 * (x % 256) + a);
    QuotientUnique(n, 16777216, y / 256, 65536 * (y % 256) + 256 * b + a);
    QuotientUnique(n, 0x1_0000_0000, z / 256, 16777216 * d + 65536 * c + 256 * b + a);
  }

  /** A page as it is written: its serialized header and its compressed contents. */
  datatype PageBytes = PageBytes(header: seq<Byte>, contents: seq<Byte>)

  function Bytes(pages: seq<PageBytes>): seq<Byte> {
    if pages == [] then [] else Bytes(pages[..|pages| - 1]) + pages[|pages| - 1].header + pages[|pages| - 1].contents
  }

  /** What the metadata tells about a chunk. */
  datatype ColumnMetaData = ColumnMetaData(
    dictionary_page_offset: Option<nat>, data_page_offset: nat, total_compressed_size: nat, path: seq<string>)
  {
    /** Where a reader starts. */
    function Start(): nat {
      if dictionary_page_offset.Some? then dictionary_page_offset.value else data_page_offset
    }
  }

  datatype ColumnChunk = ColumnChunk(file_offset: nat, meta_data: ColumnMetaData)

  type RowGroup = seq<ColumnChunk>

  function AllChunks(groups: seq<RowGroup>): seq<ColumnChunk> {
    if groups == [] then [] else AllChunks(groups[..|groups| - 1]) + groups[|groups| - 1]
  }

  /** The pages of a column: a dictionary page or none, and data pages. */
  datatype ColumnPages = ColumnPages(dictionary: Option<PageBytes>, pages: seq<PageBytes>)
  {
    function All(): seq<PageBytes> {
      Front() + pages
    }

    /** The dictionary page, if there is one. */
    function Front(): seq<PageBytes> {
      if dictionary.Some? then [dictionary.value] else []
    }
  }

  /** The metadata of a file: its flat schema, its row groups, the number of rows recorded for each of
      them, and for all. */
  datatype FileMetaData = FileMetaData(
    schema: seq<SchemaElement>, row_groups: seq<RowGroup>, row_counts: seq<nat>, num_rows: nat)

  function Sum(ns: seq<nat>): nat {
    if ns == [] then 0 else Sum(ns[..|ns| - 1]) + ns[|ns| - 1]
  }

  /** The serializer of the metadata. */
  datatype Serializer = Serializer(chunk: ColumnMetaData -> seq<Byte>, file: FileMetaData -> seq<Byte>)

  /** The file holds the pages of a column where the metadata of its chunk says, the data pages
      behind the dictionary page, and that metadata right behind them. */
  ghost predicate At(file: seq<Byte>, chunk: ColumnChunk, column: ColumnPages, s: Serializer) {
    var m, after := chunk.meta_data, chunk.file_offset + |s.chunk(chunk.meta_data)|;
    && (m.dictionary_page_offset.Some? <==> column.dictionary.Some?)
    && 4 <= m.Start() <= m.data_page_offset <= chunk.file_offset <= after <= |file|
    && m.Start() + m.total_compressed_size == chunk.file_offset
    && file[m.Start()..m.data_page_offset] == Bytes(column.Front())
    && file[m.data_page_offset..chunk.file_offset] == Bytes(column.pages)
    && file[chunk.file_offset..after] == s.chunk(m)
  }

  /** Chunk `i` of the metadata delimits exactly the pages `held[i]` in the file, and chunks do
      not overlap. */
  ghost predicate Delimited(file: seq<Byte>, chunks: seq<ColumnChunk>, held: seq<ColumnPages>, s: Serializer) {
    && |chunks| == |held| && (forall i :: 0 <= i < |chunks| ==> At(file, chunks[i], held[i], s))
    && forall i, j :: 0 <= i < j < |chunks| ==>
      chunks[i].meta_data.Start() + chunks[i].meta_data.total_compressed_size <= chunks[j].meta_data.Start()
  }

  /** The same of every chunk of every row group. */
  ghost predicate GroupsAt(file: seq<Byte>, groups: seq<RowGroup>, held: seq<seq<ColumnPages>>, s: Serializer) {
    && |groups| == |held|
    && forall g :: 0 <= g < |groups| ==>
      |groups[g]| == |held[g]| && forall i :: 0 <= i < |groups[g]| ==> At(file, groups[g][i], held[g][i], s)
  }

  /** The chunks of all row groups one after another. */
  function AllHeld(held: seq<seq<ColumnPages>>): seq<ColumnPages> {
    if held == [] then [] else AllHeld(held[..|held| - 1]) + held[|held| - 1]
  }

  /** Chunks that are delimited one after another are found in their row groups. */
  lemma {:induction false} DelimitedGroups(file: seq<Byte>, groups: seq<RowGroup>, held: seq<seq<ColumnPages>>, s: Serializer)
    requires |groups| == |held| && forall g :: 0 <= g < |groups| ==> |groups[g]| == |held[g]|
    requires Delimited(file, AllChunks(groups), AllHeld(held), s)
    ensures GroupsAt(file, groups, held, s)
    decreases |groups|
  {
    hide At;
    if groups != [] {
      var n := |groups| - 1;
      SameLengths(groups, held);
      SameLengths(groups[..n], held[..n]);
      var a, b := AllChunks(groups[..n]), AllHeld(held[..n]);
      DelimitedParts(file, a, groups[n], b, held[n], s);
      DelimitedGroups(file, groups[..n], held[..n], s);
    }
  }

  lemma {:induction false} SameLengths(groups: seq<RowGroup>, held: seq<seq<ColumnPages>>)
    requires |groups| == |held| && forall g :: 0 <= g < |groups| ==> |groups[g]| == |held[g]|
    ensures |AllChunks(groups)| == |AllHeld(held)|
  {
    if groups != [] {
      SameLengths(groups[..|groups| - 1], held[..|groups| - 1]);
    }
  }

  lemma {:induction false} DelimitedParts(
    file: seq<Byte>, a: seq<ColumnChunk>, c: seq<ColumnChunk>, b: seq<ColumnPages>, d: seq<ColumnPages>, s: Serializer)
    requires |a| == |b| && |c| == |d| && Delimited(file, a + c, b + d, s)
    ensures Delimited(file, a, b, s)
    ensures forall i :: 0 <= i < |c| ==> At(file, c[i], d[i], s)
  {
    hide At;
    forall i | 0 <= i < |a| ensures At(file, a[i], b[i], s) {
      assert (a + c)[i] == a[i] && (b + d)[i] == b[i];
    }
    forall i, j | 0 <= i < j < |a|
      ensures a[i].meta_data.Start() + a[i].meta_data.total_compressed_size <= a[j].meta_data.Start()
    {
      assert (a + c)[i] == a[i] && (a + c)[j] == a[j];
    }
    forall i | 0 <= i < |c| ensures At(file, c[i], d[i], s) {
      assert (a + c)[|a| + i] == c[i] && (b + d)[|a| + i] == d[i];
    }
  }

  /** The metadata of each column names the path of its leaf. */
  predicate HasPaths(group: RowGroup, paths: seq<seq<string>>) {
    |group| <= |paths| && forall i :: 0 <= i < |group| ==> group[i].meta_data.path == paths[i]
  }

  lemma {:induction false} AtLater(file: seq<Byte>, more: seq<Byte>, chunk: ColumnChunk, column: ColumnPages, s: Serializer)
    requires At(file, chunk, column, s)
    ensures At(file + more, chunk, column, s)
  {
    hide Bytes;
    var m, after := chunk.meta_data, chunk.file_offset + |s.chunk(chunk.meta_data)|;
    assert (file + more)[m.Start()..m.data_page_offset] == file[m.Start()..m.data_page_offset];
    assert (file + more)[m.data_page_offset..chunk.file_offset] == file[m.data_page_offset..chunk.file_offset];
    assert (file + more)[chunk.file_offset..after] == file[chunk.file_offset..after];
  }

  lemma {:induction false} DelimitedLater(
    file: seq<Byte>, more: seq<Byte>, chunks: seq<ColumnChunk>, held: seq<ColumnPages>, s: Serializer)
    requires Delimited(file, chunks, held, s)
    ensures Delimited(file + more, chunks, held, s)
  {
    hide At;
    forall i | 0 <= i < |chunks| ensures At(file + more, chunks[i], held[i], s) {
      AtLater(file, more, chunks[i], held[i], s);
    }
  }

  /** The bytes of two lots of pages are one behind the other. */
  lemma {:induction false} BytesBoth(a: seq<PageBytes>, b: seq<PageBytes>)
    ensures Bytes(a + b) == Bytes(a) + Bytes(b)
    decreases |b|
  {
    if b == [] {
      assert a + b == a;
    } else {
      var front, last := b[..|b| - 1], b[|b| - 1];
      assert (a + b)[..|a + b| - 1] == a + front;
      BytesBoth(a, front);
      assert Bytes(a) + Bytes(front) + last.header + last.contents == Bytes(a) + (Bytes(front) + last.header + last.contents);
    }
  }

  /** What the metadata of a chunk says of its pages, from the place where they start. */
  predicate Counts(m: ColumnMetaData, column: ColumnPages, start: nat) {
    && (if column.dictionary.Some? then m.dictionary_page_offset == Some(start) else m.dictionary_page_offset == None)
    && m.data_page_offset == start + |Bytes(column.Front())|
    && m.total_compressed_size == |Bytes(column.Front())| + |Bytes(column.pages)|
  }

  /** One more chunk at the end of the file, and its metadata. */
  lemma {:induction false} DelimitedMore(
    file: seq<Byte>, column: ColumnPages, chunks: seq<ColumnChunk>, held: seq<ColumnPages>, chunk: ColumnChunk, s: Serializer)
    requires Delimited(file, chunks, held, s) && 4 <= |file|
    requires Counts(chunk.meta_data, column, |file|) && chunk.file_offset == |file| + |Bytes(column.All())|
    ensures Delimited(file + Bytes(column.All()) + s.chunk(chunk.meta_data), chunks + [chunk], held + [column], s)
  {
    hide Bytes;
    var bytes, meta := Bytes(column.All()), s.chunk(chunk.meta_data);
    Associate(file, bytes, meta);
    DelimitedLater(file, bytes + meta, chunks, held, s);
    BytesBoth(column.Front(), column.pages);
    NoBytes();
    PartsOf(file, Bytes(column.Front()), Bytes(column.pages), meta);
    EndsWithin(file, chunks, held, s);
    AppendedAt(file + bytes + meta, chunks, held, chunk, column, s);
  }

  lemma {:induction false} NoBytes()
    ensures Bytes([]) == []
  {
  }

  lemma {:induction false} PartsOf(a: seq<Byte>, b: seq<Byte>, c: seq<Byte>, d: seq<Byte>)
    ensures var all := a + (b + c) + d;
      && all[|a|..|a| + |b|] == b && all[|a| + |b|..|a| + |b| + |c|] == c
      && all[|a| + |b| + |c|..|a| + |b| + |c| + |d|] == d
  {
  }

  /** From where a reader starts to the end of the chunk there are all its pages. */
  lemma {:induction false} WholeChunk(file: seq<Byte>, chunk: ColumnChunk, column: ColumnPages, s: Serializer)
    requires At(file, chunk, column, s)
    ensures var m := chunk.meta_data;
      m.Start() + m.total_compressed_size <= |file|
      && file[m.Start()..m.Start() + m.total_compressed_size] == Bytes(column.All())
  {
    hide Bytes;
    var m := chunk.meta_data;
    BytesBoth(column.Front(), column.pages);
    JoinSlices(file, m.Start(), m.data_page_offset, chunk.file_offset);
  }

  lemma {:induction false} AppendedAt(
    file: seq<Byte>, chunks: seq<ColumnChunk>, held: seq<ColumnPages>, chunk: ColumnChunk, column: ColumnPages, s: Serializer)
    requires Delimited(file, chunks, held, s) && At(file, chunk, column, s)
    requires forall i :: 0 <= i < |chunks| ==>
      chunks[i].meta_data.Start() + chunks[i].meta_data.total_compressed_size <= chunk.meta_data.Start()
    ensures Delimited(file, chunks + [chunk], held + [column], s)
  {
    hide At;
  }

  lemma {:induction false} EndsWithin(file: seq<Byte>, chunks: seq<ColumnChunk>, held: seq<ColumnPages>, s: Serializer)
    requires Delimited(file, chunks, held, s)
    ensures forall i :: 0 <= i < |chunks| ==> chunks[i].meta_data.Start() + chunks[i].meta_data.total_compressed_size <= |file|
  {
    forall i | 0 <= i < |chunks| ensures chunks[i].meta_data.Start() + chunks[i].meta_data.total_compressed_size <= |file| {
      assert At(file, chunks[i], held[i], s);
    }
  }

  /** A file up to its last metadata: the magic number, and each chunk with its own metadata right
      behind it, without gaps. */
  function Laid(chunks: seq<ColumnChunk>, held: seq<ColumnPages>, s: Serializer): seq<Byte>
    requires |chunks| == |held|
    decreases |chunks|
  {
    if chunks == [] then PAR1
    else
      var n := |chunks| - 1;
      Laid(chunks[..n], held[..n], s) + Bytes(held[n].All()) + s.chunk(chunks[n].meta_data)
  }

  lemma {:induction false} OneMoreLaid(
    chunks: seq<ColumnChunk>, held: seq<ColumnPages>, chunk: ColumnChunk, column: ColumnPages, s: Serializer)
    requires |chunks| == |held|
    ensures Laid(chunks + [chunk], held + [column], s) == Laid(chunks, held, s) + Bytes(column.All()) + s.chunk(chunk.meta_data)
  {
    hide Bytes;
    assert (chunks + [chunk])[..|chunks|] == chunks && (held + [column])[..|chunks|] == held;
  }

  lemma {:induction false} LaidBegins(chunks: seq<ColumnChunk>, held: seq<ColumnPages>, s: Serializer)
    requires |chunks| == |held|
    ensures PAR1 <= Laid(chunks, held, s)
    decreases |chunks|
  {
    hide Bytes;
    if chunks != [] {
      LaidBegins(chunks[..|chunks| - 1], held[..|chunks| - 1], s);
    }
  }

  lemma {:induction false} BeginsAndEnds(body: seq<Byte>, more: seq<Byte>)
    ensures PAR1 <= body ==> (body + more + PAR1)[..4] == (body + more + PAR1)[|body + more + PAR1| - 4..] == PAR1
  {
  }

  lemma {:induction false} OneMorePage(pages: seq<PageBytes>, p: PageBytes)
    ensures Bytes(pages + [p]) == Bytes(pages) + p.header + p.contents
  {
    assert (pages + [p])[..|pages|] == pages;
  }

  class SyncWriter {
    var sink: seq<Byte>
    var file_offset: nat
    var row_groups: seq<RowGroup>
    var row_counts: seq<nat>
    const schema: seq<SchemaElement>
    const leaf_paths: seq<seq<string>>
    const serializer: Serializer
    ghost var held: seq<ColumnPages>  // the pages of every chunk written

    ghost predicate Valid()
      reads this
    {
      && file_offset == |sink| && 4 <= |sink| && |AllChunks(row_groups)| == |held|
      && sink == Laid(AllChunks(row_groups), held, serializer)
      && Delimited(sink, AllChunks(row_groups), held, serializer)
    }

    constructor (schema: seq<SchemaElement>, leaf_paths: seq<seq<string>>, serializer: Serializer)
      ensures Valid() && sink == PAR1 && row_groups == [] && row_counts == [] && held == []
      ensures this.schema == schema && this.leaf_paths == leaf_paths && this.serializer == serializer
    {
      this.schema, this.leaf_paths, this.serializer := schema, leaf_paths, serializer;
      sink, file_offset, row_groups, row_counts, held := PAR1, 4, [], [], [];
    }

    method Write(bytes: seq<Byte>)
      modifies `sink
      ensures sink == old(sink) + bytes
    {
      sink := sink + bytes;
    }

    /** Write the pages of a chunk; the offsets in the metadata count from its start. */
    method SyncFlushChunk(column: ColumnPages) returns (cmd: ColumnMetaData)
      modifies `sink
      ensures sink == old(sink) + Bytes(column.All()) && Counts(cmd, column, 0)
    {
      ghost var before := sink;
      hide Bytes;
      var total, dictionary_page_offset := 0, None;
      ghost var done: seq<PageBytes> := [];
      NoBytes();
      assert before + [] == before;
      BytesBoth(column.Front(), column.pages);
      if column.dictionary.Some? {
        dictionary_page_offset := Some(total);
        total := WritePage(column.dictionary.value, total, before, done);
        assert done + [column.dictionary.value] == [column.dictionary.value];
        done := [column.dictionary.value];
      }
      var data_page_offset := total;
      assert done == column.Front();
      for i := 0 to |column.pages|
        invariant done + column.pages[i..] == column.All()
        invariant sink == before + Bytes(done) && total == |Bytes(done)|
      {
        total := WritePage(column.pages[i], total, before, done);
        done := done + [column.pages[i]];
      }
      assert done == column.All();
      cmd := ColumnMetaData(dictionary_page_offset, data_page_offset, total, []);
    }

    method WritePage(p: PageBytes, size: nat, ghost before: seq<Byte>, ghost done: seq<PageBytes>) returns (total: nat)
      requires sink == before + Bytes(done) && size == |Bytes(done)|
      modifies `sink
      ensures sink == before + Bytes(done + [p]) && total == |Bytes(done + [p])|
    {
      OneMorePage(done, p);
      Write(p.header);
      Write(p.contents);
      Associate(before, Bytes(done), p.header);
      Associate(before, Bytes(done) + p.header, p.contents);
      total := size + |p.header| + |p.contents|;
    }

    /** Write a column chunk and, behind it, its metadata; record it in the last row group. */
    method FlushColumn(column: ColumnPages, path: seq<string>)
      requires Valid() && row_groups != []
      modifies `sink, `file_offset, `row_groups, `held
      ensures Valid() && |row_groups| == |old(row_groups)| && held == old(held) + [column]
      ensures var n := |row_groups| - 1;
        && row_groups[..n] == old(row_groups)[..n] && |row_groups[n]| == |old(row_groups)[n]| + 1
        && row_groups[n][..|old(row_groups)[n]|] == old(row_groups)[n]
        && row_groups[n][|old(row_groups)[n]|].meta_data.path == path
    {
      hide Delimited, Bytes, Laid, AllChunks;
      ghost var file, chunks := sink, AllChunks(row_groups);
      var cmd := SyncFlushChunk(column);
      BytesBoth(column.Front(), column.pages);
      cmd := cmd.(
        dictionary_page_offset := if cmd.dictionary_page_offset.Some? then Some(cmd.dictionary_page_offset.value + file_offset) else None,
        data_page_offset := cmd.data_page_offset + file_offset,
        path := path);
      var footer := serializer.chunk(cmd);
      file_offset := file_offset + cmd.total_compressed_size;
      var cc := ColumnChunk(file_offset, cmd);
      LastGroup(row_groups, cc);
      row_groups := row_groups[|row_groups| - 1 := row_groups[|row_groups| - 1] + [cc]];
      file_offset := file_offset + |footer|;
      DelimitedMore(file, column, chunks, held, cc, serializer);
      OneMoreLaid(chunks, held, cc, column, serializer);
      held := held + [column];
      Write(footer);
    }

    /** A row group: one chunk for every column, in order. The rows recorded are those that the first
        column writer tells. */
    method FlushRowGroup(columns: seq<ColumnPages>, rows_written: nat)
      requires Valid() && |columns| <= |leaf_paths|
      modifies `sink, `file_offset, `row_groups, `row_counts, `held
      ensures row_counts == old(row_counts) + [rows_written]
      ensures Valid() && |row_groups| == |old(row_groups)| + 1 && row_groups[..|old(row_groups)|] == old(row_groups)
      ensures |row_groups[|old(row_groups)|]| == |columns| && HasPaths(row_groups[|old(row_groups)|], leaf_paths)
      ensures held == old(held) + columns
    {
      hide Delimited, Bytes, Laid;
      ghost var n := |row_groups|;
      assert AllChunks(row_groups + [[]]) == AllChunks(row_groups) by {
        assert (row_groups + [[]])[..|row_groups|] == row_groups;
      }
      row_groups, row_counts := row_groups + [[]], row_counts + [rows_written];
      assert old(held) + columns[..0] == old(held);
      for i := 0 to |columns|
        invariant Valid() && |row_groups| == n + 1 && held == old(held) + columns[..i]
        invariant row_counts == old(row_counts) + [rows_written]
        invariant row_groups[..n] == old(row_groups) && |row_groups[n]| == i && HasPaths(row_groups[n], leaf_paths)
      {
        ghost var group := row_groups[n];
        FlushColumn(columns[i], leaf_paths[i]);
        OneMorePath(group, row_groups[n], leaf_paths);
        assert columns[..i + 1] == columns[..i] + [columns[i]];
        Associate(old(held), columns[..i], [columns[i]]);
      }
      assert columns[..|columns|] == columns;
    }

    /** The metadata to be written. */
    function MetaData(): FileMetaData
      reads this
    {
      FileMetaData(schema, row_groups, row_counts, Sum(row_counts))
    }

    /** The rows of all row groups. */
    method TotalRows() returns (n: nat)
      ensures n == Sum(row_counts)
    {
      n := 0;
      for g := 0 to |row_counts|
        invariant n == Sum(row_counts[..g])
      {
        assert row_counts[..g + 1][..g] == row_counts[..g];
        n := n + row_counts[g];
      }
      assert row_counts[..|row_counts|] == row_counts;
    }

    /** The last row group, the metadata of the file, its length and the magic number. */
    method Close(columns: seq<ColumnPages>, rows_written: nat)
      requires Valid() && |columns| <= |leaf_paths|
      modifies `sink, `file_offset, `row_groups, `row_counts, `held
      ensures held == old(held) + columns && row_counts == old(row_counts) + [rows_written]
      ensures |row_groups| == |old(row_groups)| + 1 && row_groups[..|old(row_groups)|] == old(row_groups)
      ensures |row_groups[|old(row_groups)|]| == |columns| && HasPaths(row_groups[|old(row_groups)|], leaf_paths)
      ensures Delimited(sink, AllChunks(row_groups), held, serializer)
      ensures sink == Laid(AllChunks(row_groups), held, serializer)
        + serializer.file(MetaData()) + Le32(|serializer.file(MetaData())|) + PAR1
      ensures |sink| >= 8 && sink[..4] == sink[|sink| - 4..] == [0x50, 0x41, 0x52, 0x31]
      ensures var footer := serializer.file(MetaData());
        |footer| < 0x1_0000_0000 <==> ReadMetadata(sink) == Some(footer)
    {
      hide Delimited, Bytes, Laid;
      FlushRowGroup(columns, rows_written);
      ghost var body := sink;
      var num_rows := TotalRows();
      var footer := serializer.file(FileMetaData(schema, row_groups, row_counts, num_rows));
      Write(footer);
      Write(Le32(|footer|));
      Write(PAR1);
      ghost var tail := footer + Le32(|footer|) + PAR1;
      assert sink == body + tail;
      DelimitedLater(body, tail, AllChunks(row_groups), held, serializer);
      FooterIsFound(body, footer);
      BeginsAndEnds(body, footer + Le32(|footer|));
      LaidBegins(AllChunks(row_groups), held, serializer);
    }
  }

  lemma {:induction false} OneMorePath(group: RowGroup, more: RowGroup, paths: seq<seq<string>>)
    requires HasPaths(group, paths) && |more| == |group| + 1 <= |paths| && more[..|group|] == group
    requires more[|group|].meta_data.path == paths[|group|]
    ensures HasPaths(more, paths)
  {
    forall i | 0 <= i < |group| ensures more[i] == group[i] {
      assert more[..|group|][i] == group[i];
    }
  }

  lemma {:induction false} LastGroup(groups: seq<RowGroup>, cc: ColumnChunk)
    requires groups != []
    ensures var n := |groups| - 1;
      AllChunks(groups[n := groups[n] + [cc]]) == AllChunks(groups) + [cc]
  {
    var n := |groups| - 1;
    var changed := groups[n := groups[n] + [cc]];
    assert changed[..n] == groups[..n];
    Associate(AllChunks(groups[..n]), groups[n], [cc]);
  }

  // ----- Reading -----

  /** The serialized metadata, found from the end of the file. */
  function ReadMetadata(file: seq<Byte>): Option<seq<Byte>> {
    var size := |file|;
    if size < 8 || file[size - 4..] != PAR1 then None
    else
      var len := FromLe32(file[size - 8..size - 4]);
      if len + 8 > size then None else Some(file[size - 8 - len..size - 8])
  }

  /** The length has 32 bits, which is what it takes to find the metadata. */
  lemma {:induction false} FooterIsFound(body: seq<Byte>, footer: seq<Byte>)
    ensures |footer| < 0x1_0000_0000 <==> ReadMetadata(body + footer + Le32(|footer|) + PAR1) == Some(footer)
  {
    hide FromLe32, Le32;
    var file := body + footer + Le32(|footer|) + PAR1;
    var size := |file|;
    Le32RoundTrip(|footer|);
    assert file[size - 4..] == PAR1 && file[size - 8..size - 4] == Le32(|footer|);
    if |footer| < 0x1_0000_0000 {
      assert file[size - 8 - |footer|..size - 8] == footer;
    }
  }
}
