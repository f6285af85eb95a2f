# A verified model of the Parquet data path

This Dafny project models the lossless data path of parquet4seastar, from nested records down
to bits and back, and proves that what is written is what is read.

The layers, each in files of their own:

- **Bit streams** (`Bits`, `BitWriter`, `BitPacking`, `BitReader`, `BitStreamInverse`): the bit
  writer with its 64-bit staging word, the bit reader with its batch path (unaligned prologue,
  32 values at a time, tail), VLQ and zigzag coding. One unpacker, parametric in the width,
  stands for the 32 generated ones. Memory is a sequence of bits, least significant first.
- **Hybrid run-length / bit-packed codec** (`Rle`, `RleEncoder`, `RleDecoder`, `RleBuilder`): the
  encoder as the state machine it is, with its reserved indicator byte and its "full" flag, the
  decoder on arbitrary bytes, and the builder that flushes, doubles the buffer and goes on.
- **Value encodings** (`Plain`, `Dictionary`, `ValueCoding`, `Delta`, `DeltaEncoder`): plain
  values of every kind, the growing dictionary with the key equality of each kind and its fallback,
  and the delta encoder against a decoder written from the format's definition ("Delta Encoding
  (DELTA_BINARY_PACKED = 5)" in Encodings.md).
- **Column chunks** (`Levels`, `ColumnChunk`, `ColumnReader`, `ChunkRoundTrip`): levels and
  values in pages, dictionary pages, and batches that never span pages.
- **Schemas** (`Schema`, `LogicalSchema`, `SchemaIO`): the writer's tree, the flat preorder list,
  the raw tree with levels, paths and column indices, and the logical tree.
- **Records** (`Records`, `Assembly`, `Protocol`, `Lossless`, `RecordReader`, `FieldReaders`): shredding
  as a specification, the recursive record readers, the proof that assembly undoes shredding, and an
  automaton for the calls of a consumer.
- **Streams and files** (`PeekableStream`, `PageStream`, `FileLayout`): the sliding buffer of the
  page reader, pages behind their headers, and the offsets that the metadata records.
- **All the way** (`RecordRoundTrip`, `RowGroups`, `FileRoundTrip`): records are shredded, written as
  column chunks, read and assembled again; the same for any number of row groups through the bytes
  of a file, schema included.
- Small things the layers share: `Options`, `Formats` (the enumerations of the format), `ByteString`.

Where the source changes state step by step, the model does too: classes with the source's
fields, methods with loops, and ghost fields for what they stand for. Methods are proved against
functions (`Decode`, `Triplets`, `ReadField`, `Parse`, ...), and the main theorems are lemmas about
those functions. A field reader is given the leaves of its own subtree as a sequence of objects.

Some promises do not hold of the code as it is. For these the model keeps the code, and states
exactly when the promise is met:

- Booleans are written a byte each and read a bit each: in a plain page they come back if and only
  if all of them but the first are false (`PlainCoding.BooleansReadBackIff`). Dictionary pages are
  plain, so in a dictionary column a true comes back if and only if it is the first key
  (`Dictionaries.BooleanReadBackIff`).
- The dictionary compares floating-point keys as numbers: a zero comes back if and only if no zero of
  the other sign is in the dictionary, and every NaN is a key of its own
  (`Dictionaries.FloatReadBackIff`).
- So a column comes back if and only if its encoder keeps every value that is put, which can be
  asked before each put (`ValueCoding.Coder.ReadIffKeeps`, `ChunkRoundTrips.ReadBackIffFaithful`).
  Records come back if and only if all columns do; otherwise the reader gets records of the same
  shape with the values that the encoders make of those put (`RecordRoundTrips.RecordsSurvive`).
- Plainly encoded values of a kind are always read back if and only if they are neither booleans nor
  fixed-length arrays of no bytes (`PlainCoding.AlwaysReadBackIff`).
- The rows recorded for a row group are those of its records if and only if all groups before the last
  are empty, and so are those recorded for the file: the column writers count on from group to group
  (`FileRoundTrips.RowCountsRightIff`, `FileRoundTrips.TotalRowsRightIff`).
- A repeated run is read back if and only if it is no longer than 2^30 - 1: beyond that the 32-bit
  indicator turns negative and the decoder stops there (`Rle.RunLengthIsReadBack`). What an encoder
  is given comes back if and only if it never counts a longer run
  (`RleEncoding.RleEncoder.Flush`).
- Records come back for every list of records if and only if the schema is readable: the first
  field ends in a column, and so does the first child of whatever is optional or repeated
  (`Lossless.ReadsBackIffReadable`).
- What is left of pages that are cut off is read without an error if and only if the cut is between
  pages (`PageStreams.CutOffIsNoticed`). The metadata of a file is found from its end if and only if
  it has less than 2^32 bytes (`FileLayouts.FooterIsFound`).
- The reader lifts a writer's schema if and only if no map key has children, and its levels are as
  the record readers need them if and only if no list has the legacy two-level form
  (`LogicalSchemas.SchemaReadsBack`, `LogicalSchemas.LevelledIffStandard`). A list in that form comes
  back inside one more list unless it is empty (`Assembly.DoubledListSpells`).
- A file can be set up if and only if no map key is optional and every leaf has a type, an encoding
  and a compressor that can be written (`SchemaIO.WriteThenRead`).

Where a comment and the code differ, the model follows the code: `peekable_stream::advance` is
documented to throw past the end of the stream, but leaves that to `skip`, which does not.

## Model

| member | source | states |
|---|---|---|
| `FileRoundTrips.FileSurvives` | include/parquet4seastar/file_writer.hh:267-347 | through the bytes of a file: a writer's schema is flattened, records are written in any number of row groups, with any page flushes; each page has the encoding that the values put call for; if the pages fit their headers, then the file holds each of them where its metadata says, the leaves of its schema have the writer's types, levels and paths, and a dictionary page is told for the columns with a dictionary only, and the rows recorded for a group are those of all records so far; if the metadata has less than 2^32 bytes and levels 16 bits, then the reader makes from the bytes the calls that spell records of the same shape, the very ones that were written if and only if every value is kept, which they are when no leaf is a boolean or a floating-point number with a dictionary; pages do fit unless there is too much data for a compressor that at most doubles it |
| `FileRoundTrips.LeafAlwaysKeptIff` | src/encoding.cc:718-749 | for a leaf of a writer's schema, every allowed sequence of puts is kept if and only if its type is not BOOLEAN and, if it is FLOAT or DOUBLE, its encoding is PLAIN |
| `FileRoundTrips.SizesOfTypes` | src/encoding.cc:718-831 | exactly values of 4, 8, 4, 8 and 1 bytes can be put for INT32, INT64, FLOAT, DOUBLE and BOOLEAN, values of the type's length for fixed-length arrays, and any below 2^32 bytes for byte arrays |
| `FileRoundTrips.SafeIsKept` | src/encoding.cc:946-985 | if so of every leaf, every value of every row group is kept |
| `FileRoundTrips.RowCountsRightIff` | include/parquet4seastar/file_writer.hh:307-313 | the rows recorded for each row group are those of its records if and only if all groups but the last are empty: column writers count on from group to group |
| `FileRoundTrips.TotalRowsRightIff` | include/parquet4seastar/file_writer.hh:333-339 | the number of rows recorded for the file is that of its records if and only if all groups but the last are empty |
| `FileRoundTrips.WriteFile` | include/parquet4seastar/file_writer.hh:307-347 | the chunks of all row groups are in the file at the offsets and with the leaf paths that the metadata records, data pages behind dictionary pages, with the rows told for each group and their sum; and the metadata, with the schema, is found from the end if and only if it has less than 2^32 bytes |
| `FileRoundTrips.OffsetsOfPages` | include/parquet4seastar/column_chunk_writer.hh:233-247 | for a chunk in a file, the metadata tells the place of a dictionary page if and only if the column has a dictionary, and the data pages are found behind it at the place told |
| `FileRoundTrips.ReadFile` | src/file_reader.cc:90-119 | from any file whose metadata points at chunks that store shredded records, the consumer gets the calls that spell them, row group after row group, through schema, offsets, page headers and batches |
| `RowGroups.EachReadBackIff` | include/parquet4seastar/column_chunk_writer.hh:213-253 | the columns of all row groups are read as they were put if and only if every value is kept in the state that the row groups before have left; levels always are |
| `RowGroups.SameCallsIffKept` | include/parquet4seastar/record_reader.hh:485-497 | reading all row groups makes the calls of the records written if and only if every value of every column is kept |
| `RecordRoundTrips.RecordsSurvive` | include/parquet4seastar/record_reader.hh:485-497 | any records of a readable schema, shredded, written with any page flushes, encodings and compression, and read with any batch sizes, reach the consumer as the calls that spell records of the same shape, the very ones that were written if and only if every column keeps its values, as long as levels fit 16 bits and pages fit their headers, which only too much data in a column can prevent |
| `RecordRoundTrips.ColumnsReadBackIff` | include/parquet4seastar/column_chunk_writer.hh:93-107 | what readers get from columns has the shape of what was put on them, and is what was put if and only if every encoder keeps every value |
| `RecordRoundTrips.PutsExist` | include/parquet4seastar/column_chunk_writer.hh:93-107 | the triplets of any shredded records, however many, can be put on column writers with the schema's maxima and in pages that fit: levels stay within the maxima and a value is there exactly at the maximum definition level |
| `Assembly.RecordsReadBack` | include/parquet4seastar/record_reader.hh:233-371 | assembly undoes shredding: reading the columns of any list of records makes the calls that spell those records, in order, and leaves every column exhausted; what spelling means is told by the rows of `Protocols` |
| `Assembly.FieldReadsBack` | include/parquet4seastar/record_reader.hh:233-332 | reading one shredded instance of any node spells it and takes exactly its triplets from every leaf below, although each decision looks at the first leaf only, provided what follows starts no deeper than the node |
| `Assembly.SkipTakesOne` | include/parquet4seastar/record_reader.hh:335-371 | skipping a node takes exactly one triplet from every leaf below it and makes no call |
| `Assembly.PrimitiveReads` | include/parquet4seastar/record_reader.hh:233-242 | on any column with a value exactly at the maximum definition level, a primitive takes one triplet and appends its value if it has one, and fails only at the end of the column |
| `Assembly.ReadAll` | include/parquet4seastar/record_reader.hh:485-497 | on any finite columns reading all records ends or fails; it ends only where the first field has no triplet left, with as many columns as before |
| `Assembly.ReadAllExhausts` | include/parquet4seastar/record_reader.hh:485-497 | whatever the columns hold, a read of all records that succeeds has taken every triplet of the first leaf |
| `Assembly.ReadField` | include/parquet4seastar/record_reader.hh:233-332 | on any columns a successful read takes at least one triplet from every leaf below the node |
| `Assembly.ShredOpens` | include/parquet4seastar/record_reader.hh:256-296 | the first triplet of an instance has the instance's repetition level in every leaf, and at least the node's definition level |
| `Assembly.DoubledListReads` | include/parquet4seastar/record_reader.hh:256-296 | whatever the columns, a list that directly contains a list with the same levels reads as a list of that one list, unless that is empty |
| `Assembly.DoubledListSpells` | include/parquet4seastar/record_reader.hh:256-296 | what is written on such a list comes back inside one more list: as it was written if and only if it is empty |
| `Protocols.ReadAllNested` | include/parquet4seastar/record_reader.hh:233-332 | on any columns of a levelled schema, a read of all records that succeeds makes calls that nest: by a stack automaton over the calls each list, map, struct and record is closed by its own call, list separators come directly in lists only, and those of keys and values directly in maps only |
| `Protocols.RecordsExpected` | include/parquet4seastar/record_reader.hh:233-332 | the calls that spell records are accepted by a recognizer that follows the schema and knows the calls, their order, the field names and the separators |
| `Protocols.EveryValueOnce` | include/parquet4seastar/record_reader.hh:233-332 | the values that the calls append are those in the columns of the records, each as often as it occurs there |
| `Lossless.ReadsBackIffReadable` | include/parquet4seastar/record_reader.hh:335-379 | every list of records comes back if and only if the schema is readable; otherwise there is a record that does not |
| `Lossless.ShredIsLossless` | include/parquet4seastar/record_reader.hh:233-371 | two lists of records have the same columns if and only if they are the same |
| `Lossless.RefillRecords` | include/parquet4seastar/record_reader.hh:233-371 | columns that differ from those of some records in values only are the columns of records of the same schema |
| `Lossless.SpellUnambiguous` | include/parquet4seastar/record_reader.hh:233-332 | no sequence of consumer calls that spells a value begins the one that spells another value of the node |
| `Records.RowsOfRecords` | include/parquet4seastar/column_chunk_writer.hh:93-100 | every column of shredded records has one triplet at repetition level 0 for each record |
| `RecordReading.TypedPrimitiveReader.ReadBatch` | include/parquet4seastar/record_reader.hh:412-436 | a refill hands over the next triplets: a batch of the size asked for unless its page ends before, none only at the end, wherever pages end |
| `RecordReading.TypedPrimitiveReader.Next` | include/parquet4seastar/record_reader.hh:438-457 | the cursor yields the triplets of the column one by one across refills, pairing values with levels at the maximum; the error of a missing buffered value cannot occur |
| `RecordReading.TypedPrimitiveReader.CurrentLevels` | include/parquet4seastar/record_reader.hh:391-410 | the levels of the next triplet, or minus one at the end, without consuming it |
| `RecordReading.TripletsSplit` | include/parquet4seastar/record_reader.hh:420-428 | cutting levels anywhere, and the values after as many as those levels take, cuts the triplets at the same place |
| `FieldReading.CurrentLevels` | include/parquet4seastar/record_reader.hh:341-379 | the levels a nested reader sees are those of its first leaf, and no column moves |
| `FieldReading.SkipField` | include/parquet4seastar/record_reader.hh:335-371 | the skipping readers do to their leaves what the function says, or fail exactly when it does |
| `FieldReading.ReadField` | include/parquet4seastar/record_reader.hh:233-332 | the recursive readers make the calls and take the triplets that the function says, or fail exactly when it does |
| `FieldReading.ReadMore` | include/parquet4seastar/record_reader.hh:262-275 | the loop over later items of a list or map ends and agrees with the function |
| `FieldReading.RecordReader.ReadAll` | include/parquet4seastar/record_reader.hh:485-497 | the loop over records ends and agrees with the function, and on a levelled schema the calls it adds nest |
| `FieldReading.MakeFields` | src/record_reader.cc:45-91 | one cursor per primitive, in column order and at the start of its column; none if a level exceeds 16 bits |
| `FieldReading.ReadRowGroup` | src/record_reader.cc:93-100 | whatever the pages and batch sizes, columns of shredded records are read as the calls that spell them |
| `Schemas.ParseOfPreorder` | src/reader_schema.cc:34-60 | rebuilding a flattened tree by its child counts gives the tree and stops right behind it |
| `Schemas.PreorderOfParse` | src/reader_schema.cc:34-60 | whatever is rebuilt successfully was the flattening of the result, followed by the rest |
| `Schemas.ColumnsAgree` | include/parquet4seastar/file_writer.hh:225-257 | below any writer node, the i-th leaf that the reader computes has the physical type of the i-th writer leaf, the levels of the i-th column writer, the i-th leaf path and the i-th column index |
| `LogicalSchemas.SchemaReadsBack` | src/reader_schema.cc:122-228 | reading a flattened writer schema gives the writer's tree with well-formed levels and one primitive per column writer; nothing exactly when a map key has children |
| `LogicalSchemas.RawColumnsReadBack` | src/writer_schema.cc:114-126 | the leaves recovered from a flattened writer schema are the writer's primitives in order: their physical types, levels, paths and column indices |
| `LogicalSchemas.ReadSchemaIff` | src/reader_schema.cc:109-237 | for any flat schema, the fields built are exactly those that stand for its elements by rules written out without the building functions: converted types, repetitions, the names of legacy lists; none are built if and only if no fields do |
| `LogicalSchemas.FieldsAreFaithful` | src/reader_schema.cc:109-237 | for any raw tree, the logical tree has the same leaves in the same order, and its levels nest properly if and only if no list is in the legacy form |
| `LogicalSchemas.LevelledIffStandard` | src/reader_schema.cc:134-144 | for any file the levels of the logical tree nest properly below those of its root element if and only if no list has the legacy form; they start at 0 when the root is required |
| `LogicalSchemas.LegacyListIsDoubled` | src/reader_schema.cc:134-138 | a list in the legacy form becomes a list that directly contains a list with the same levels |
| `LogicalSchemas.SolidIsReadable` | include/parquet4seastar/record_reader.hh:341-345 | a non-empty schema without empty structs is readable |
| `SchemaIO.WriteSchema` | src/writer_schema.cc:31-137 | the elements are the preorder of the tree and the leaf paths are in column order; it fails exactly on an optional map key |
| `SchemaIO.SchemaWriter.Convert` | src/writer_schema.cc:40-127 | appends the elements and leaf paths of the node at the current path and restores the path |
| `SchemaIO.AllKeysRequiredIff` | src/writer_schema.cc:87-90 | the writer takes a schema if and only if no map anywhere in it has an optional key |
| `SchemaIO.AllSolidIff` | include/parquet4seastar/record_reader.hh:341-345 | the schemas that the file theorem is about are those without an empty struct anywhere |
| `SchemaIO.FileWriter.InitFields` | include/parquet4seastar/file_writer.hh:225-257 | adds a column writer with the right levels for every leaf; it succeeds exactly if every leaf is of a type other than INT96, with an encoding that has an encoder for the type and a compressor in the build |
| `SchemaIO.AllWritableIff` | src/encoding.cc:1140-1188 | setting up column writers succeeds if and only if each single leaf is supported: a table of types, encodings and compressors |
| `SchemaIO.ShapeReader.Convert` | src/reader_schema.cc:34-60 | the index-driven recursion agrees with parsing and ends for any child counts |
| `SchemaIO.WriteThenRead` | src/writer_schema.cc:31-137 | set-up of a file succeeds exactly if no map below has an optional key and every leaf has a type other than INT96, an encoding that has an encoder for it and a compressor in the build; then the leaves of the flat schema have the types, levels and paths of the column writers; reading the schema back succeeds exactly if no map key has children, and then both sides agree on tree, columns and levels |
| `SchemaIO.StructKeyIsLost` | src/reader_schema.cc:147-171 | a map whose key is a struct is written without an error, and its schema cannot be read |
| `ChunkRoundTrips.RoundTrip` | include/parquet4seastar/column_chunk_reader.hh:104-143 | the batches of a column return the levels put and the values that the encoder makes of those at the maximum: what was put if and only if every value is kept, for any page flushes and batch sizes of at least one, in pages that their header can count and in which no level or index comes 2^30 times in a row, unless a page gets too large for its header, which the size of what is put can rule out beforehand; the encodings of its pages are those that the values put call for |
| `ChunkRoundTrips.ShortPagesFit` | include/parquet4seastar/column_chunk_writer.hh:93-107 | pages of fewer than 2^30 - 1 triplets are such pages, whatever is put |
| `ChunkRoundTrips.ReadBackIffFaithful` | src/encoding.cc:946-985 | what a reader gets from a column is what was put if and only if the encoder keeps each value in the state it is put in, over any page boundaries |
| `ChunkRoundTrips.ExactIsFaithful` | src/encoding.cc:833-904 | columns of integers and byte arrays are kept whatever is put, and so are floating-point columns without a dictionary |
| `ChunkRoundTrips.UnfaithfulColumns` | src/encoding.cc:849-855 | columns that do not come back: 0.0, -0.0 and false, true with a dictionary, and true, true without one |
| `ChunkRoundTrips.AlwaysKeptIff` | src/encoding.cc:946-985 | whatever is put on a column is kept if and only if its values are neither booleans nor floating-point numbers with a dictionary; otherwise two puts are lost |
| `ChunkRoundTrips.FallsBackIff` | src/encoding.cc:973-982 | the next page of a column made with a dictionary is plain if and only if at some earlier flush the plain codes of the distinct values put until then took more than 16 * 1024 bytes |
| `ChunkRoundTrips.ChunksArePromised` | src/encoding.cc:973-982 | the encodings of all data pages of a chunk follow from the values put, across row groups, by that rule |
| `ChunkRoundTrips.WriteChunks` | include/parquet4seastar/column_chunk_writer.hh:213-253 | the chunks of successive row groups each hold what the encoder makes of what was put for them, in the state that the groups before have left, although the dictionary goes on growing: exactly what was put if every value is kept; each data page has the encoding that the values put until then call for, and a dictionary page is in front of every chunk of a dictionary column only; the rows told after a chunk are those of all chunks so far; no page is too large if everything put together is not |
| `ChunkRoundTrips.GroupsReadBackIff` | src/encoding.cc:946-985 | the chunks of successive row groups are read as they were put if and only if every value is kept, each in the state that those before it have left |
| `ChunkRoundTrips.RoomOfPages` | include/parquet4seastar/column_chunk_writer.hh:109-134 | however a column is cut into pages, none of them is larger than all levels and values together |
| `ColumnChunks.ColumnChunkWriter.Put` | include/parquet4seastar/column_chunk_writer.hh:93-107 | one triplet more on the current page, with the value that the encoder makes of the one put if that is at the maximum definition level; earlier pages keep their meaning; the page may grow while its header can count it and no level or index comes 2^30 times in a row; a repetition level of 0 counts as a row |
| `ColumnChunks.ColumnChunkWriter.FlushPage` | include/parquet4seastar/column_chunk_writer.hh:116-157 | the page holds what was put since the last one, in the encoding of the encoder's state, and the encoders start over |
| `ColumnChunks.ColumnChunkWriter.FlushChunk` | include/parquet4seastar/column_chunk_writer.hh:213-253 | the chunk, behind its dictionary page if there is one, can be read back to all pages since the last chunk, as long as its pages fit their headers, and they do unless levels and values or the dictionary are too large; the dictionary page is plain and in front, and no other page is one |
| `ColumnChunks.ContentsOf` | include/parquet4seastar/column_chunk_writer.hh:116-134 | repetition levels, definition levels and values are found again in the page contents |
| `ColumnReading.ColumnChunkReader.ReadBatch` | include/parquet4seastar/column_chunk_reader.hh:104-143 | a batch is the next part of what the chunk holds, of the size asked for unless its page ends before, empty only at the end; none of the consistency errors occurs |
| `ColumnReading.ColumnChunkReader.LoadDataPage` | src/column_chunk_reader.cc:70-97 | the decoders stand at the levels and values of the page |
| `ColumnReading.ColumnChunkReader.LoadDictionaryPage` | src/column_chunk_reader.cc:136-163 | the dictionary becomes the values that the page holds, for any contents: an error exactly if they are cut off or fewer than the header says |
| `ColumnReading.ColumnChunkReader.LoadNextPage` | src/column_chunk_reader.cc:165-188 | loading a page loses nothing, and notices the end |
| `LevelCoding.LevelDecoder.ResetV1` | src/encoding.cc:26-63 | the number of bytes the levels take, or an error exactly when the page is too short or the length negative |
| `LevelCoding.LevelDecoder.ReadBatch` | include/parquet4seastar/encoding.hh:60-80 | the next levels of the page, at most as many as asked for; zeros for a width of 0 |
| `LevelCoding.LevelPartHolds` | include/parquet4seastar/column_chunk_writer.hh:120-129 | levels behind their length are read back from the start of any page |
| `LevelCoding.LevelEncoder.Flush` | include/parquet4seastar/column_chunk_writer.hh:120-150 | the bytes of all levels put, behind their length, within nine bytes a level and a constant, and a fresh start; they are read back if no level comes 2^30 times in a row |
| `PlainCoding.PlainReadsBack` | src/encoding.cc:515-563 | any batch of plainly encoded values comes back and leaves the others |
| `PlainCoding.PlainReadIff` | src/encoding.cc:515-563 | what any bytes are read as, for all kinds but booleans: exactly the values whose codes they begin with, as many as asked for or until nothing is left, or less than a number; an error in all other cases |
| `PlainCoding.PlainEncoder.PutBatch` | src/encoding.cc:718-831 | appends the codes of the values to those put before |
| `PlainCoding.PlainDecoder.ReadBatch` | src/encoding.cc:515-563 | the values there are, fewer at the end of the page, or an error inside a value, for all kinds but booleans |
| `PlainCoding.BooleanDecoder.ReadBatch` | src/encoding.cc:526 | the next bits of the page, one each, through the batch path of the bit reader, fewer at the end |
| `PlainCoding.BooleansReadBackIff` | src/encoding.cc:718-749 | what the boolean decoder gets from plainly encoded booleans are these booleans if and only if all but the first are false |
| `PlainCoding.OneMoreBoolean` | src/encoding.cc:718-749 | one more boolean behind such a page is read back if and only if it is false, or the first |
| `PlainCoding.TrueAfterFalse` | src/encoding.cc:526 | false, true is read back as false, false |
| `PlainCoding.AlwaysReadBackIff` | src/encoding.cc:515-563 | the values of a kind are always read back if and only if they are neither booleans nor fixed-length arrays of no bytes |
| `Dictionaries.DictBuilder.Put` | src/encoding.cc:849-855 | the index of a key is its place in the dictionary by the key equality of its kind, in which 0.0 is -0.0 and a NaN is never itself; new keys go at the end only |
| `Dictionaries.SpecialFloats` | src/encoding.cc:849-855 | the bits of zeros and of what is not a number, for both sizes of floating-point values, as exponents and mantissas |
| `Dictionaries.FirstOccurrencesGrow` | src/encoding.cc:833-904 | by that equality the dictionary is free of duplicates and keeps what it had in front; it has the values put and no others, but of the zeros possibly one only |
| `Dictionaries.FloatReadBackIff` | src/encoding.cc:833-858 | a floating-point value is read back through the dictionary if and only if it is no zero or all zeros among the keys have its sign |
| `Dictionaries.BooleanReadBackIff` | src/encoding.cc:833-858 | a boolean is read back through the dictionary page if and only if it is false, or the first key is true |
| `Dictionaries.ExactReadBack` | src/encoding.cc:860-904 | integers and byte arrays are always read back through the dictionary |
| `Dictionaries.NegativeZeroIsLost` | src/encoding.cc:849-855 | 0.0, -0.0 is read back as 0.0, 0.0 |
| `Dictionaries.TrueAfterFalseIsLost` | src/encoding.cc:849-855 | false, true is read back as false, false; true, false comes back |
| `Dictionaries.DictEncoder.PutBatch` | src/encoding.cc:919-924 | the indices tell the pending values as the dictionary renders them, with its keys in order of first occurrence over everything put ever |
| `Dictionaries.DictEncoder.Flush` | src/encoding.cc:929-939 | the page tells, through the dictionary page as it is read, what the indices stand for, within the promised size: a byte for the width of the largest index, and the runs that the reference encoder makes of the indices; no index is refused although results are ignored |
| `Dictionaries.DictDecoder.ReadBatch` | src/encoding.cc:578-613 | the values at the next indices and an error exactly when one of them exceeds the size of the dictionary; if there are fewer, those of the indices in full buffers of 1024 and of those before a literal run that is cut off, or an error by the same test |
| `ValueCoding.Coder.ReadIffKeeps` | src/encoding.cc:946-985 | a value is read back if and only if the state of the encoder keeps it, a test on the value and on the keys or the page so far |
| `ValueCoding.ValueEncoder.Flush` | src/encoding.cc:973-982 | the page denotes what the encoder makes of the pending values, dictionary encoded up to and including the page that crosses the threshold, plain afterwards |
| `ValueCoding.ValueDecoder.Reset` | src/encoding.cc:626-686 | a page that denotes values gets a decoder that stands at them; a dictionary page must have come first |
| `ValueCoding.ValueDecoder.ReadBatch` | src/encoding.cc:688-691 | the next values of the page |
| `DeltaEncoding.DeltaEncoder.Flush` | src/encoding.cc:1118-1137 | by the format's definition the bytes denote exactly the values put, whatever the unset padding holds, and fit the size promised before; the header tells 256 values and 8 miniblocks a block, all blocks but the last are full, and each is as small as it can be: its minimum is the smallest difference and its widths are the smallest that hold the others |
| `DeltaEncoding.DeltaEncoder.PromisedSize` | src/encoding.cc:1084-1117 | the size promised: five or ten bytes for each of the four numbers of the header and for a minimum, eight widths, whole miniblocks for the values left, and the blocks so far |
| `DeltaEncoding.DeltaEncoder.PutBatch` | src/encoding.cc:1091-1113 | any split into batches gathers the same input |
| `DeltaEncoding.DeltaEncoder.FlushBlock` | src/encoding.cc:1027-1083 | the block appended denotes the gathered values after the last one, within its size bound |
| `DeltaEncoding.WriteMini` | src/encoding.cc:1069-1078 | a miniblock holds its values at the front, whatever bits pad it, and no write fails |
| `DeltaEncoding.DeltaEncoder.ComputeDeltas` | src/encoding.cc:1036-1047 | the differences modulo 2^width, with the smallest of them as signed numbers |
| `DeltaFormat.BlockDecodes` | src/encoding.cc:1027-1083 | the decoder of the format takes a block apart and goes on with what follows |
| `DeltaFormat.DecodesWithHeader` | src/encoding.cc:1118-1125 | header and blocks decode to the first value and the values of all blocks |
| `DeltaFormat.AccumulateDeltas` | src/encoding.cc:1036-1055 | adding differences less their minimum, modulo 2^width, gives the values again, through every overflow |
| `RleBuilding.RoundTrip` | include/parquet4seastar/encoding.hh:206-245 | any number of values without 2^30 equal ones in a row, put through the growing encoder, come back in any batches, despite padding |
| `RleBuilding.RleBuilder.Put` | include/parquet4seastar/encoding.hh:217-227 | the value is appended, and the loop of flushing and doubling ends |
| `RleBuilding.RleBuilder.Grow` | include/parquet4seastar/encoding.hh:218-226 | flushing a full encoder in mid-stream pads nothing, so the concatenated segments denote all values put |
| `RleBuilding.RleBuilder.View` | include/parquet4seastar/encoding.hh:240-243 | the bytes are runs that expand to all values put and fewer than eight zeros; the values are read back if and only if no run is too long, and none is without 2^30 equal values in a row |
| `RleBuilding.NeverFull` | include/parquet4seastar/rle_encoding.hh:167-196 | with room for the minimum and the maximum buffer size, no put of that many values is refused |
| `RleEncoding.RleEncoder.Put` | include/parquet4seastar/rle_encoding.hh:371-400 | a put is refused exactly when the encoder is full, when nothing but a pure repeated run is pending; else the value is appended and the invariant kept |
| `RleEncoding.RunsFitIsNotLong` | include/parquet4seastar/rle_encoding.hh:371-400 | without 2^30 equal values in a row the encoder never counts a run that is too long |
| `RleEncoding.LongTrailing` | include/parquet4seastar/rle_encoding.hh:371-400 | with 2^30 + 7 equal values in a row, and up to seven of them in a literal group, it does |
| `RleEncoding.RleEncoder.Flush` | include/parquet4seastar/rle_encoding.hh:478-503 | the memory holds exactly the runs that a reference function makes of the input, group of eight by group; they expand to the input, padded with fewer than eight zeros, unpadded after a pure repeated run, within the size bound; the input is decoded from it if and only if no repeated run of the input, as the encoder counts them, is longer than 2^30 - 1 |
| `RleEncoding.RleEncoder.FlushLiteralRun` | include/parquet4seastar/rle_encoding.hh:402-430 | the literals go behind the reserved indicator, whose value stays below 128 |
| `RleEncoding.RleEncoder.FlushRepeatedRun` | include/parquet4seastar/rle_encoding.hh:432-444 | the run is written with the indicator that its 32-bit count gives, and fits, even after the buffer has been marked full |
| `RleEncoding.RleEncoder.FlushBufferedValues` | include/parquet4seastar/rle_encoding.hh:448-476 | a full group joins a literal run or starts a repeated one, and the content stays the same |
| `RleEncoding.RleEncoder.CheckBufferFull` | include/parquet4seastar/rle_encoding.hh:505-510 | the encoder is full exactly when another run might not fit |
| `Rle.DecodeInvertsSerialize` | include/parquet4seastar/rle_encoding.hh:282-367 | serialized runs decode to their values, none of them cut off, and leave what follows to be decoded next |
| `Rle.RunLengthIsReadBack` | include/parquet4seastar/rle_encoding.hh:340-367 | the header that the encoder writes for a repeated run of up to 2^31 - 1 values tells its length if and only if that is below 2^30, and beyond there is no header to be read |
| `Rle.ReadBackIffReadable` | include/parquet4seastar/rle_encoding.hh:282-367 | runs that expand to an input and some padding decode to that input first if and only if no repeated run is too long |
| `Rle.DecodeFallsShort` | include/parquet4seastar/rle_encoding.hh:340-367 | behind a run that is too long nothing is decoded: more than 2^30 - 1 values are missing |
| `Rle.SerializeCost` | include/parquet4seastar/rle_encoding.hh:180-196 | long runs never take more bytes than the budget of their groups of eight |
| `Rle.BudgetIsMaxBufferSize` | include/parquet4seastar/rle_encoding.hh:180-196 | the budget of n values is exactly the maximum buffer size |
| `Rle.SerializeRoom` | include/parquet4seastar/rle_encoding.hh:402-446 | whatever the runs, widths up to 32 take at most nine bytes a value |
| `RleDecoding.RleDecoder.GetBatch` | include/parquet4seastar/rle_encoding.hh:282-333 | on any bytes the batch ends and is the next part of what they denote; it is full exactly when there are enough values, and otherwise has exactly those before a literal run that is cut off |
| `RleDecoding.RleDecoder.NextCounts` | include/parquet4seastar/rle_encoding.hh:340-367 | the next run is taken up without changing what is denoted, or there is none |
| `BitStreamInverse.WriteThenRead` | include/parquet4seastar/bit_stream_utils.hh:191-460 | any sequence of values, aligned values, VLQs and zigzag VLQs is read back as it was written, and writing it succeeds if and only if the buffer has room for it |
| `BitStreamInverse.ReadInvertsWrite` | include/parquet4seastar/bit_stream_utils.hh:191-460 | the same about the bits: each operation finds its own code behind those before it |
| `BitReading.BitReader.GetBatch` | include/parquet4seastar/bit_stream_utils.hh:290-366 | as many values as remain, each the number in its own bits, from any bit position, and the position moves by as many widths |
| `BitReading.BitReader.GetVlqInt` | include/parquet4seastar/bit_stream_utils.hh:405-441 | reads a VLQ of limited length at the next byte, or fails when there is none |
| `BitReading.BitReader.GetAligned` | include/parquet4seastar/bit_stream_utils.hh:368-393 | reads whole bytes at the next byte boundary, or fails when they are not there |
| `BitReading.BitReader.GetZigZagVlqInt` | include/parquet4seastar/bit_stream_utils.hh:455-460 | reads back the signed number, over the whole 64-bit range |
| `BitReading.VlqRoundTrip` | include/parquet4seastar/bit_stream_utils.hh:395-441 | a VLQ of at most the limit is read as the number written and takes exactly its own bits |
| `BitWriting.BitWriter.PutValue` | include/parquet4seastar/bit_stream_utils.hh:191-211 | the bits are appended across word boundaries, or refused exactly when they do not fit; what was written stays |
| `BitWriting.BitWriter.Flush` | include/parquet4seastar/bit_stream_utils.hh:213-223 | memory holds the stream and its padding; aligned, the writer goes on at the next byte |
| `BitWriting.BitWriter.PutAligned` | include/parquet4seastar/bit_stream_utils.hh:225-240 | whole bytes at the next boundary, or a refusal exactly when they do not fit |
| `BitWriting.BitWriter.PutVlqInt` | include/parquet4seastar/bit_stream_utils.hh:395-403 | the VLQ of the number, or a refusal exactly when it does not fit |
| `BitWriting.ZigZagWordIsZigZag` | include/parquet4seastar/bit_stream_utils.hh:443-446 | shifting and xor on words is the zigzag map on signed numbers |
| `BitWriting.VlqLength` | include/parquet4seastar/bit_stream_utils.hh:395-403 | a number below 2^(7k) takes at most k bytes |
| `BitPacking.Unpack32` | include/parquet4seastar/bpacking.hh:3764-3873 | whole blocks of 32 values, each the number in its own bits; the rest is left |
| `BitPacking.UnpackBlock` | include/parquet4seastar/bpacking.hh:76-144 | word-wise unpacking of a block agrees with reading the values bit by bit |
| `Bits.UnpackSplit` | include/parquet4seastar/bit_stream_utils.hh:290-366 | two batches are one batch of the sum |
| `Bits.UnpackOfPack` | include/parquet4seastar/bit_stream_utils.hh:290-366 | packed values are unpacked again, whatever follows |
| `Bits.BitWidth` | include/parquet4seastar/encoding.hh:35-37 | the smallest width that holds the number |
| `PeekableStreams.PeekableStream.Peek` | src/thrift_serdes.cc:79-91 | the next bytes, as many as asked for or as there are, as a piece of the buffer; nothing is consumed, and no more is read from the source than is asked for |
| `PeekableStreams.PeekableStream.Advance` | src/thrift_serdes.cc:94-105 | exactly that many bytes are dropped, or all there are, and the buffer is left alone |
| `PeekableStreams.PeekableStream.EnsureSpace` | src/thrift_serdes.cc:58-76 | there is room afterwards and the unconsumed bytes are the same; the buffer stays as it is if and only if there was room or more than half of it was consumed and moving the bytes to its front is enough, and otherwise it gets the smallest power of two that holds what it held and what is needed |
| `PeekableStreams.PeekableStream.Rewind` | src/thrift_serdes.cc:61-65 | only bytes that come after all those rewound before are moved, so none is moved so twice |
| `PeekableStreams.PeekableStream.ReadExactly` | src/thrift_serdes.cc:30-44 | appends exactly the next bytes of the source, in whatever chunks they come |
| `PeekableStreams.PeekableStream.NextPageContents` | src/column_chunk_reader.cc:39-48 | a peeked view is still in the buffer after it has been advanced over |
| `PeekableStreams.NextPowerOf2Is` | include/parquet4seastar/thrift_serdes.hh:41-46 | buffer sizes are the smallest powers of two that are large enough |
| `PageStreams.PageReader.ReadHeader` | include/parquet4seastar/thrift_serdes.hh:131-162 | on any stream the header that the deserializer finds in a view doubling from 1 KiB to 16 MiB is returned and consumed, and nothing else; an error if there is none, the end only for an empty stream |
| `PageStreams.PageReader.ReadPage` | src/column_chunk_reader.cc:27-51 | on any stream the page behind its header and the bytes it takes, an error for a negative size or missing contents, the end only at the end |
| `PageStreams.PageReader.ReadPages` | src/column_chunk_reader.cc:27-51 | on any stream the pages up to its end or up to an error, through the sliding buffer, in whatever pieces the bytes arrive |
| `PageStreams.HeaderIsFound` | include/parquet4seastar/thrift_serdes.hh:131-162 | a header that was serialized is found whatever follows, if and only if it is not larger than 16 MiB |
| `PageStreams.FitsIff` | include/parquet4seastar/column_chunk_writer.hh:138-148 | the headers that are written are those whose fields are the same as signed numbers of 32 bits, with no negative size |
| `PageStreams.PagesAreFound` | src/column_chunk_reader.cc:27-51 | the serialized pages of a chunk are read as they were written |
| `PageStreams.CutOffIsNoticed` | src/column_chunk_reader.cc:34-45 | a chunk that is cut off anywhere is read without an error if and only if it is cut between pages; the pages read are the first ones written in any case |
| `FileLayouts.SyncWriter.FlushColumn` | include/parquet4seastar/file_writer.hh:314-330 | the recorded offsets and size delimit exactly the dictionary page and the data pages of the chunk, its metadata with the path of the leaf follows right behind and is recorded last in the row group, and the file offset is the number of bytes written |
| `FileLayouts.SyncWriter.FlushRowGroup` | include/parquet4seastar/file_writer.hh:307-331 | the same for every column of a new row group, in order and with their paths; earlier row groups stay, no two chunks of the file overlap and there are no gaps between them; the rows that the first column writer tells are recorded |
| `FileLayouts.SyncWriter.SyncFlushChunk` | include/parquet4seastar/column_chunk_writer.hh:213-253 | the dictionary page, if there is one, and then the data pages are written one after another; the size and both offsets are counted from the start of the chunk, that of the data pages behind the dictionary page |
| `FileLayouts.WholeChunk` | src/file_reader.cc:113-119 | from where a reader starts, as many bytes as the recorded size are exactly the pages of the chunk |
| `FileLayouts.SyncWriter.Close` | include/parquet4seastar/file_writer.hh:333-347 | the final file is PAR1, the chunks with their metadata, the metadata of the file, its length and PAR1; chunks are where the metadata says, one row group more than were flushed before, the rows of all groups are added up, and the metadata with the schema is found from the end if and only if it has less than 2^32 bytes |
| `FileLayouts.FooterIsFound` | src/file_reader.cc:28-56 | length and magic number locate exactly the serialized metadata, if and only if that has less than 2^32 bytes |

## Left out

- `FieldReading.ReadField`: errors of a source below are not modelled; the pages a column is read from are well-formed.
- `RleDecoding.RleDecoder.GetBatch`: promises nothing about the decoder after a batch that came up short, since a run cut off by the end of the buffer leaves a stale repeat count behind.
- `Dictionaries.DictDecoder.ReadBatch`: requires that no index equals the size of the dictionary; the check lets that index pass and the look-up would read past the end.
- `Dictionaries.DictEncoder.Flush`: requires that no index comes 2^30 times in a row in a page; what happens then is said of the codec below (`RleEncoding.RleEncoder.Flush`).
- `LevelCoding.LevelDecoder.ResetV1`: requires that a length within the page does not reach up to four bytes behind it, which the check lets pass; BIT_PACKED levels are not modelled, the writer never makes them.
- `ColumnReading.ColumnChunkReader.ReadBatch`: requires a batch size of at least one (a batch of none would run to the end of the chunk) and pages that are well-formed; data pages of version 2 are not modelled.
- `ColumnReading.ColumnChunkReader.LoadDataPage`: requires a well-formed page; of malformed ones only the lengths of levels, the values and the indices have their errors modelled, in the decoders.
- `ChunkRoundTrips.RoundTrip`: requires that no page gets 2^31 triplets, which its header cannot count, nor a level or an index 2^30 times in a row, and promises nothing once a page reaches 2^31 bytes before compression, where the 32-bit fields of its header overflow; that compressed sizes fit is stated only for files (`FileRoundTrips.FileSurvives`).
- `ValueCoding.ValueDecoder.Reset`: an empty page is not offered as dictionary encoded, where the code would read a byte that is not there.
- `BitReading.BitReader.GetZigZagVlqInt`: the 32-bit variant is not modelled; nothing in the data path uses it.
- `RecordRoundTrips.RecordsSurvive`: loads the columns before it assembles the records; the readers of the source draw batches on demand, with the same contract. The encodings are PLAIN and RLE_DICTIONARY, those that also have a decoder in the model.
- `FileRoundTrips.FileSurvives`: promises no file if some page does not fit its header. The chunks of a column are produced for all row groups before the file is written, all pages of a column are read before its batches, and the kinds and compressors of columns come from the writer's side rather than from the metadata. Schemas have at least one field and no empty structs. The serializers of headers and metadata are any that have an inverse, with headers of at most 16 MiB.
- `PlainCoding.AlwaysReadBackIff`: is all that is said of fixed-length arrays of no bytes; `Kind.Valid` keeps columns with a type length of 0 out of the chunk, record and file theorems, though a writer's schema may have them.
- `ValueCoding.ValueEncoder.Flush`: requires, like `DictEncoder.Flush`, that no index comes 2^30 times in a row in a page.
- `RleEncoding.RleEncoder.Put`: at width 0 requires that fewer than 2^30 - 1 equal values are pending; the header of a longer run takes ten bytes there, for which the buffer need not have room. The same holds of `RleBuilder.Put` and `FlushRepeatedRun`.
- The decoders for DELTA_BINARY_PACKED, DELTA_LENGTH_BYTE_ARRAY, DELTA_BYTE_ARRAY and BYTE_STREAM_SPLIT: the first three repeat or misplace values between calls and are no partners for a round trip.
- `column_chunk_writer::put_batch`, which counts definition levels of 0 instead of the maximum.
- What the metadata of a chunk or a row group tells beyond offsets, compressed sizes, paths and rows: numbers of values, uncompressed sizes, sets of encodings.
- The capacity of the page buffer, which leaves out the two four-byte level prefixes: a page is a growing sequence here.
- Overflow of `int` in buffer lengths of 2^31 bits and more.
- The writing passes over raw schema nodes are merged into one function, `Annotate`, on values; aliasing between nodes and the list of leaves is not captured.
- Logical types and statistics in schema elements, and type lengths on the reader's side; a writer's primitive has a physical type, a length, an encoding and a compressor.
- Seastar futures, asynchronous sinks and files: everything happens in sequence.
- Thrift and the compressors: a serializer and a lossless codec are parameters.
- CQL output, prefetching and the AVX variants of the unpackers.
