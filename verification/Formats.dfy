/** The enumerations of the file format that schemas and pages use. */
module Formats {
  datatype PhysicalType = BOOLEAN | INT32 | INT64 | INT96 | FLOAT | DOUBLE | BYTE_ARRAY | FIXED_LEN_BYTE_ARRAY

  datatype Repetition = REQUIRED | OPTIONAL | REPEATED

  datatype ConvertedType = LIST | MAP | MAP_KEY_VALUE | OTHER

  datatype Encoding =
    | PLAIN | PLAIN_DICTIONARY | RLE | BIT_PACKED | DELTA_BINARY_PACKED | DELTA_LENGTH_BYTE_ARRAY | DELTA_BYTE_ARRAY
    | RLE_DICTIONARY | BYTE_STREAM_SPLIT

  datatype CompressionCodec = UNCOMPRESSED | SNAPPY | GZIP | LZO | BROTLI | LZ4 | ZSTD
}
