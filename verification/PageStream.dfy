/**
Pages as bytes: a serialized header and the compressed contents, one page after another, read
back through a peekable stream.
 */
module PageStreams {
  import opened Options
  import opened Formats
  import opened Bits
  import opened ByteStrings
  import opened ColumnChunks
  import opened PeekableStreams
  import L = FileLayouts

  datatype PageHeader = PageHeader(
    page_type: PageType, num_values: nat, encoding: Encoding, uncompressed_page_size: nat, compressed_page_size: int)
  {
    /** The fields of a header have 32 bits, with a sign. */
    predicate Fits() {
      num_values < 0x8000_0000 && uncompressed_page_size < 0x8000_0000 && 0 <= compressed_page_size < 0x8000_0000
    }
  }

  /** A number as a signed one of 32 bits. */
  function ToInt32(n: int): int {
    (n + 0x8000_0000) % 0x1_0000_0000 - 0x8000_0000
  }

  /** A header fits if none of its fields is changed by that, and no size is negative. */
  lemma {:induction false} FitsIff(h: PageHeader)
    ensures h.Fits() <==>
      && ToInt32(h.num_values) == h.num_values && ToInt32(h.uncompressed_page_size) == h.uncompressed_page_size
      && ToInt32(h.compressed_page_size) == h.compressed_page_size >= 0
  {
    Int32Iff(h.num_values);
    Int32Iff(h.uncompressed_page_size);
    Int32Iff(h.compressed_page_size);
  }

  lemma {:induction false} Int32Iff(n: int)
    ensures ToInt32(n) == n <==> -0x8000_0000 <= n < 0x8000_0000
  {
  }

  /** What a deserializer makes of some bytes: a header and the bytes it took, the need for more of
      them, or an error. */
  datatype HeaderResult = Header(header: PageHeader, size: nat) | TooShort | Malformed

  const EXPECTED_SIZE := 1024
  const MAX_ALLOWED_SIZE := 16 * 1024 * 1024

  /** The serializer of headers and its inverse. */
  datatype HeaderCodec = HeaderCodec(write: PageHeader -> seq<Byte>, read: seq<Byte> -> HeaderResult)

  /** What a deserializer takes is a part of what it was given. */
  ghost predicate Sane(headers: HeaderCodec) {
    forall view: seq<Byte> :: headers.read(view).Header? ==> 0 < headers.read(view).size <= |view|
  }

  /** A header is found at the start of whatever begins with it, and missed in less than that. */
  ghost predicate Decodes(headers: HeaderCodec) {
    && Sane(headers)
    && (forall h: PageHeader :: h.Fits() ==> headers.write(h) != [])
    && forall h: PageHeader, view: seq<Byte> :: h.Fits() ==>
         && (headers.write(h) <= view ==> headers.read(view) == Header(h, |headers.write(h)|))
         && (view < headers.write(h) ==> headers.read(view) == TooShort)
  }

  /** No header is larger than a reader allows. */
  ghost predicate Inverts(headers: HeaderCodec) {
    Decodes(headers) && forall h: PageHeader :: h.Fits() ==> |headers.write(h)| <= MAX_ALLOWED_SIZE
  }

  /** The contents are whole bytes, and sizes fit the header. */
  predicate Transportable(s: StoredPage) {
    |s.contents| == 8 * (|s.contents| / 8) && HeaderOf(s).Fits()
  }

  predicate AllTransportable(pages: seq<StoredPage>) {
    forall i :: 0 <= i < |pages| ==> Transportable(pages[i])
  }

  function HeaderOf(s: StoredPage): PageHeader {
    PageHeader(s.page_type, s.num_values, s.encoding, s.uncompressed_size, |s.contents| / 8)
  }

  function PageOf(h: PageHeader, contents: seq<Byte>): StoredPage {
    StoredPage(h.page_type, h.num_values, h.encoding, h.uncompressed_page_size, BitsOf(contents))
  }

  function ToBytes(s: StoredPage, headers: HeaderCodec): L.PageBytes
    requires Transportable(s)
  {
    L.PageBytes(headers.write(HeaderOf(s)), BytesOf(s.contents, |s.contents| / 8))
  }

  function AllToBytes(pages: seq<StoredPage>, headers: HeaderCodec): (r: seq<L.PageBytes>)
    requires AllTransportable(pages)
    ensures |r| == |pages|
  {
    seq(|pages|, i requires 0 <= i < |pages| => ToBytes(pages[i], headers))
  }

  /** The pages of a chunk as the file writer takes them: its dictionary page and its data pages. */
  function ColumnPagesOf(pages: seq<StoredPage>, headers: HeaderCodec): (c: L.ColumnPages)
    requires AllTransportable(pages)
    ensures c.All() == AllToBytes(pages, headers)
  {
    var bytes := AllToBytes(pages, headers);
    if pages != [] && pages[0].page_type == DICTIONARY_PAGE then
      assert [bytes[0]] + bytes[1..] == bytes;
      L.ColumnPages(Some(bytes[0]), bytes[1..])
    else L.ColumnPages(None, bytes)
  }

  /** The bytes of the pages begin with those of the first one. */
  lemma {:induction false} FirstPage(pages: seq<L.PageBytes>)
    requires pages != []
    ensures L.Bytes(pages) == pages[0].header + (pages[0].contents + L.Bytes(pages[1..]))
  {
    if |pages| == 1 {
      assert pages[..0] == [] && pages[1..] == [];
      assert L.Bytes(pages) == [] + pages[0].header + pages[0].contents;
    } else {
      var front, last := pages[..|pages| - 1], pages[|pages| - 1];
      FirstPage(front);
      assert pages[1..][..|pages| - 2] == front[1..] && pages[1..][|pages| - 2] == last;
      var a, b, c := pages[0].header, pages[0].contents, L.Bytes(front[1..]);
      assert L.Bytes(pages) == a + (b + c) + last.header + last.contents == a + (b + (c + last.header + last.contents));
    }
  }

  // ----- What a stream of bytes holds -----

  /** The header at the start of a stream, looked for in a view that doubles until the header fits
      into it; too short only if the stream is empty. */
  function FindHeader(headers: HeaderCodec, stream: seq<Byte>, expected: nat): HeaderResult
    requires expected > 0
    decreases MAX_ALLOWED_SIZE - expected
  {
    if expected > MAX_ALLOWED_SIZE then Malformed
    else
      var view := stream[..Min(expected, |stream|)];
      if view == [] then TooShort
      else
        var r := headers.read(view);
        if !r.TooShort? then r else if |view| < expected then Malformed else FindHeader(headers, stream, 2 * expected)
  }

  datatype PageResult = NextPage(page: StoredPage, size: nat) | EndOfPages | Corrupted

  /** The page at the start of a stream and the bytes it takes. */
  function PageIn(headers: HeaderCodec, stream: seq<Byte>): PageResult {
    match FindHeader(headers, stream, EXPECTED_SIZE)
    case TooShort => EndOfPages
    case Malformed => Corrupted
    case Header(h, n) =>
      if h.compressed_page_size < 0 || n + h.compressed_page_size > |stream| then Corrupted
      else NextPage(PageOf(h, stream[n..n + h.compressed_page_size]), n + h.compressed_page_size)
  }

  /** Pages up to the end of a stream, or up to one that cannot be read. */
  datatype PagesResult = PagesResult(ok: bool, pages: seq<StoredPage>)

  ghost function PagesIn(headers: HeaderCodec, stream: seq<Byte>): PagesResult
    requires Sane(headers)
    decreases |stream|
  {
    match PageIn(headers, stream)
    case EndOfPages => PagesResult(true, [])
    case Corrupted => PagesResult(false, [])
    case NextPage(page, size) =>
      FoundInStream(headers, stream, EXPECTED_SIZE);
      var later := PagesIn(headers, stream[size..]);
      PagesResult(later.ok, [page] + later.pages)
  }

  function Behind(pages: seq<StoredPage>, r: PagesResult): PagesResult {
    PagesResult(r.ok, pages + r.pages)
  }

  lemma {:induction false} FoundInStream(headers: HeaderCodec, stream: seq<Byte>, expected: nat)
    requires Sane(headers) && expected > 0
    ensures var r := FindHeader(headers, stream, expected);
      && (r.Header? ==> 0 < r.size <= |stream|) && (stream == [] ==> !r.Header?)
    decreases MAX_ALLOWED_SIZE - expected
  {
    if expected <= MAX_ALLOWED_SIZE {
      FoundInStream(headers, stream, 2 * expected);
    }
  }

  class PageReader {
    const source: PeekableStream
    const headers: HeaderCodec

    constructor (source: PeekableStream, headers: HeaderCodec)
      ensures this.source == source && this.headers == headers
    {
      this.source, this.headers := source, headers;
    }

    /** Deserialize and consume a header, if the stream is not at its end. */
    method ReadHeader() returns (r: HeaderResult)
      requires source.Valid() && Sane(headers)
      modifies source, source.buffer, source.source
      ensures source.Valid() && (source.buffer == old(source.buffer) || fresh(source.buffer))
      ensures r == FindHeader(headers, old(source.Contents()), 1024)
      ensures if r.Header? then r.size <= |old(source.Contents())| && source.Contents() == old(source.Contents())[r.size..]
        else source.Contents() == old(source.Contents())
    {
      hide PeekableStream.Valid, PeekableStream.Contents;
      ghost var all := source.Contents();
      FoundInStream(headers, all, EXPECTED_SIZE);
      var expected := EXPECTED_SIZE;
      while expected <= MAX_ALLOWED_SIZE
        invariant source.Valid() && (source.buffer == old(source.buffer) || fresh(source.buffer))
        invariant source.Contents() == all && expected > 0
        invariant FindHeader(headers, all, EXPECTED_SIZE) == FindHeader(headers, all, expected)
        decreases MAX_ALLOWED_SIZE - expected
      {
        var view, _ := source.Peek(expected);
        if view == [] {
          return TooShort;
        }
        r := headers.read(view);
        if !r.TooShort? {
          if r.Header? {
            source.Advance(r.size);
          }
          return;
        }
        if |view| < expected {
          return Malformed;
        }
        expected := 2 * expected;
      }
      r := Malformed;
    }

    /** The next page of the stream; its contents are peeked, and the view outlives the advance. */
    method ReadPage() returns (r: PageResult)
      requires source.Valid() && Sane(headers)
      modifies source, source.buffer, source.source
      ensures source.Valid() && (source.buffer == old(source.buffer) || fresh(source.buffer))
      ensures r == PageIn(headers, old(source.Contents()))
      ensures r.NextPage? ==> 0 < r.size <= |old(source.Contents())| && source.Contents() == old(source.Contents())[r.size..]
    {
      hide PeekableStream.Valid, PeekableStream.Contents, FindHeader;
      ghost var all := source.Contents();
      FoundInStream(headers, all, EXPECTED_SIZE);
      var header := ReadHeader();
      if !header.Header? {
        return if header.TooShort? then EndOfPages else Corrupted;
      }
      var size := header.header.compressed_page_size;
      if size < 0 {
        return Corrupted;
      }
      var ok, bytes, _ := source.NextPageContents(size);
      if !ok {
        return Corrupted;
      }
      SliceBehind(all, header.size, size);
      return NextPage(PageOf(header.header, bytes), header.size + size);
    }

    /** All the pages of the stream. */
    method ReadPages() returns (ok: bool, read: seq<StoredPage>)
      requires source.Valid() && Sane(headers)
      modifies source, source.buffer, source.source
      ensures PagesResult(ok, read) == PagesIn(headers, old(source.Contents()))
    {
      hide PeekableStream.Valid, PeekableStream.Contents, PageIn, Sane;
      ok, read := true, [];
      var more := true;
      ghost var all := source.Contents();
      while more
        invariant source.Valid() && (source.buffer == old(source.buffer) || fresh(source.buffer))
        invariant more ==> ok
        invariant more ==> PagesIn(headers, all) == Behind(read, PagesIn(headers, source.Contents()))
        invariant !more ==> PagesIn(headers, all) == PagesResult(ok, read)
        decreases more, |source.Contents()|
      {
        ghost var before, done := source.Contents(), read;
        var r := ReadPage();
        if r.NextPage? {
          read := read + [r.page];
          Associate(done, [r.page], PagesIn(headers, source.Contents()).pages);
        } else {
          ok, more := r.EndOfPages?, false;
        }
      }
    }
  }

  lemma {:induction false} SliceBehind(s: seq<Byte>, n: nat, m: nat)
    requires n <= |s|
    ensures n + m <= |s| ==> s[n..][..m] == s[n..n + m] && s[n..][m..] == s[n + m..]
  {
  }

  // ----- Reading what was written -----

  /** Fourteen doublings make the expected size the largest one. */
  lemma {:induction false} Doublings()
    ensures Pow2(0) == 1 && EXPECTED_SIZE * Pow2(14) == MAX_ALLOWED_SIZE && Pow2(15) == 2 * Pow2(14)
  {
    Pow2Values();
    Pow2Add(7, 7);
  }

  lemma {:induction false} Doubling(k: nat)
    ensures Pow2(k + 1) == 2 * Pow2(k) && (k >= 15 ==> Pow2(k) >= Pow2(15)) && (k <= 14 ==> Pow2(k) <= Pow2(14))
  {
    if k >= 15 {
      Pow2Monotonic(15, k);
    } else {
      Pow2Monotonic(k, 14);
    }
  }

  /** A header that was written is found in a view of some expected size, unless it is too large. */
  lemma {:induction false} HeaderIsFoundFrom(headers: HeaderCodec, h: PageHeader, rest: seq<Byte>, k: nat)
    requires Decodes(headers) && h.Fits() && k <= 15
    requires k > 0 ==> EXPECTED_SIZE * Pow2(k) < 2 * |headers.write(h)|
    ensures EXPECTED_SIZE * Pow2(k) > 0
    ensures FindHeader(headers, headers.write(h) + rest, EXPECTED_SIZE * Pow2(k))
      == if |headers.write(h)| <= MAX_ALLOWED_SIZE then Header(h, |headers.write(h)|) else Malformed
    decreases 15 - k
  {
    hide Pow2;
    var bytes, expected := headers.write(h), EXPECTED_SIZE * Pow2(k);
    var all := bytes + rest;
    Doublings();
    Doubling(k);
    if expected <= MAX_ALLOWED_SIZE {
      var view := all[..Min(expected, |all|)];
      HeaderInView(view, bytes, rest, all);
      if |bytes| > |view| {
        HeaderIsFoundFrom(headers, h, rest, k + 1);
      }
    }
  }

  /** A header that was written is found, whatever follows, if and only if it has at most 16 MiB. */
  lemma {:induction false} HeaderIsFound(headers: HeaderCodec, h: PageHeader, rest: seq<Byte>)
    requires Decodes(headers) && h.Fits()
    ensures FindHeader(headers, headers.write(h) + rest, 1024)
      == if |headers.write(h)| <= 0x100_0000 then Header(h, |headers.write(h)|) else Malformed
  {
    hide FindHeader, Pow2;
    Doublings();
    HeaderIsFoundFrom(headers, h, rest, 0);
  }

  /** A header that is cut off is not read. */
  lemma {:induction false} HeaderCutOff(headers: HeaderCodec, h: PageHeader, n: nat, expected: nat)
    requires Decodes(headers) && h.Fits() && 0 < n < |headers.write(h)| && expected > 0
    ensures FindHeader(headers, headers.write(h)[..n], expected) == Malformed
    decreases MAX_ALLOWED_SIZE - expected
  {
    if expected <= MAX_ALLOWED_SIZE {
      var bytes := headers.write(h);
      var view := bytes[..n][..Min(expected, n)];
      assert view == bytes[..Min(expected, n)] < bytes;
      HeaderCutOff(headers, h, n, 2 * expected);
    }
  }

  /** The first page that was written is read, whatever follows. */
  lemma {:induction false} PageIsFound(headers: HeaderCodec, s: StoredPage, rest: seq<Byte>)
    requires Inverts(headers) && Transportable(s)
    ensures var p := ToBytes(s, headers);
      PageIn(headers, p.header + (p.contents + rest)) == NextPage(s, |p.header| + |p.contents|)
  {
    hide FindHeader, Pow2, BitsOf, BytesOf;
    var p := ToBytes(s, headers);
    Doublings();
    HeaderIsFound(headers, HeaderOf(s), p.contents + rest);
    Parts(p.header, p.contents + rest);
    Parts(p.contents, rest);
    SliceBehind(p.header + (p.contents + rest), |p.header|, |p.contents|);
    BitsOfBytesOf(s.contents, |s.contents| / 8);
  }

  /** Then those behind it are. */
  lemma {:induction false} PagesBehind(headers: HeaderCodec, s: StoredPage, rest: seq<Byte>)
    requires Inverts(headers) && Transportable(s)
    ensures var p := ToBytes(s, headers);
      PagesIn(headers, p.header + (p.contents + rest)) == Behind([s], PagesIn(headers, rest))
  {
    hide PageIn, ToBytes, Transportable;
    PageIsFound(headers, s, rest);
    PageBehind(ToBytes(s, headers), rest);
  }

  /** The pages that were written are read. */
  lemma {:induction false} PagesAreFound(headers: HeaderCodec, pages: seq<StoredPage>)
    requires Inverts(headers) && AllTransportable(pages)
    ensures Sane(headers) && PagesIn(headers, L.Bytes(AllToBytes(pages, headers))) == PagesResult(true, pages)
    decreases |pages|
  {
    hide PagesIn, Transportable, L.Bytes;
    PagesAsBytes(pages, headers);
    if pages == [] {
      NothingIn(headers);
    } else {
      PagesBehind(headers, pages[0], L.Bytes(AllToBytes(pages[1..], headers)));
      PagesAreFound(headers, pages[1..]);
    }
  }

  lemma {:induction false} NothingIn(headers: HeaderCodec)
    requires Sane(headers)
    ensures PagesIn(headers, []) == PagesResult(true, [])
  {
  }

  lemma {:induction false} PageBehind(p: L.PageBytes, later: seq<Byte>)
    ensures (p.header + (p.contents + later))[|p.header| + |p.contents|..] == later
  {
    Associate(p.header, p.contents, later);
  }

  /** The first `k` pages end at the byte `n`. */
  predicate EndsAt(headers: HeaderCodec, pages: seq<StoredPage>, k: nat, n: nat)
    requires AllTransportable(pages)
  {
    k <= |pages| && n == |L.Bytes(AllToBytes(pages[..k], headers))|
  }

  lemma {:induction false} HasHeader(headers: HeaderCodec, s: StoredPage)
    requires Inverts(headers) && Transportable(s)
    ensures |ToBytes(s, headers).header| > 0
  {
    hide BytesOf;
    assert headers.write(HeaderOf(s)) != [];
  }

  /** A chunk that is cut off is read without an error if and only if it is cut between pages;
      the pages before the cut are read in any case. */
  lemma {:induction false} CutOffIsNoticed(headers: HeaderCodec, pages: seq<StoredPage>, n: nat)
    requires Inverts(headers) && AllTransportable(pages) && n <= |L.Bytes(AllToBytes(pages, headers))|
    ensures var r := PagesIn(headers, L.Bytes(AllToBytes(pages, headers))[..n]);
      && (r.ok <==> exists k: nat :: EndsAt(headers, pages, k, n))
      && r.pages <= pages
    decreases |pages|
  {
    hide PageIn, Transportable, L.Bytes;
    var bytes := L.Bytes(AllToBytes(pages, headers));
    PagesAsBytes(pages, headers);
    NothingIn(headers);
    if pages != [] {
      HasHeader(headers, pages[0]);
    }
    if n == 0 {
      PagesAsBytes(pages[..0], headers);
      assert EndsAt(headers, pages, 0, n);
    } else {
      var p, rest := ToBytes(pages[0], headers), L.Bytes(AllToBytes(pages[1..], headers));
      var first := |p.header| + |p.contents|;
      if n < first {
        PageCutOff(headers, pages[0], rest, n);
        forall k: nat | 1 <= k <= |pages| ensures !EndsAt(headers, pages, k, n) {
          FirstOf(headers, pages, k);
        }
        PagesAsBytes(pages[..0], headers);
        assert !EndsAt(headers, pages, 0, n);
      } else {
        CutOffBehind(headers, pages, n, first);
      }
    }
  }

  lemma {:induction false} CutOffBehind(headers: HeaderCodec, pages: seq<StoredPage>, n: nat, first: nat)
    requires Inverts(headers) && AllTransportable(pages) && pages != []
    requires var p := ToBytes(pages[0], headers); first == |p.header| + |p.contents|
    requires 0 < first <= n <= |L.Bytes(AllToBytes(pages, headers))|
    ensures var r := PagesIn(headers, L.Bytes(AllToBytes(pages, headers))[..n]);
      && (r.ok <==> exists k: nat :: EndsAt(headers, pages, k, n))
      && r.pages <= pages
    decreases |pages|, 0
  {
    hide PagesIn, Transportable, L.Bytes, ToBytes, Inverts;
    var later := pages[1..];
    var p, rest, m := ToBytes(pages[0], headers), L.Bytes(AllToBytes(later, headers)), n - first;
    PagesAsBytes(pages, headers);
    Associate(p.header, p.contents, rest);
    var cut := rest[..m];
    assert L.Bytes(AllToBytes(pages, headers))[..n] == p.header + (p.contents + cut);
    PagesBehind(headers, pages[0], cut);
    CutOffIsNoticed(headers, later, m);
    if k: nat :| EndsAt(headers, later, k, m) {
      FirstOf(headers, pages, k + 1);
      assert EndsAt(headers, pages, k + 1, n);
    }
    if k: nat :| EndsAt(headers, pages, k, n) {
      PagesAsBytes(pages[..0], headers);
      FirstOf(headers, pages, k);
      assert EndsAt(headers, later, k - 1, m);
    }
    assert pages == [pages[0]] + later;
  }

  lemma {:induction false} PageCutOff(headers: HeaderCodec, s: StoredPage, rest: seq<Byte>, n: nat)
    requires Inverts(headers) && Transportable(s)
    requires var p := ToBytes(s, headers); 0 < n < |p.header| + |p.contents|
    ensures var p := ToBytes(s, headers);
      n <= |p.header + (p.contents + rest)| && PageIn(headers, (p.header + (p.contents + rest))[..n]) == Corrupted
  {
    hide FindHeader, Pow2;
    var p := ToBytes(s, headers);
    var cut := (p.header + (p.contents + rest))[..n];
    if n < |p.header| {
      assert cut == p.header[..n];
      HeaderCutOff(headers, HeaderOf(s), n, EXPECTED_SIZE);
    } else {
      assert cut == p.header + (p.contents + rest)[..n - |p.header|];
      Doublings();
      HeaderIsFound(headers, HeaderOf(s), (p.contents + rest)[..n - |p.header|]);
    }
  }

  /** The bytes of some pages are at least those of the first. */
  lemma {:induction false} FirstOf(headers: HeaderCodec, pages: seq<StoredPage>, k: nat)
    requires AllTransportable(pages) && 1 <= k <= |pages|
    ensures var p := ToBytes(pages[0], headers);
      |L.Bytes(AllToBytes(pages[..k], headers))|
        == |p.header| + |p.contents| + |L.Bytes(AllToBytes(pages[1..][..k - 1], headers))|
  {
    hide Transportable, L.Bytes;
    PagesAsBytes(pages[..k], headers);
    assert pages[..k][1..] == pages[1..][..k - 1];
  }

  lemma {:induction false} PagesAsBytes(pages: seq<StoredPage>, headers: HeaderCodec)
    requires AllTransportable(pages)
    ensures pages == [] ==> L.Bytes(AllToBytes(pages, headers)) == []
    ensures pages != [] ==>
      var first := ToBytes(pages[0], headers);
      && AllTransportable(pages[1..])
      && L.Bytes(AllToBytes(pages, headers)) == first.header + (first.contents + L.Bytes(AllToBytes(pages[1..], headers)))
  {
    hide Transportable;
    if pages != [] {
      FirstPage(AllToBytes(pages, headers));
      assert AllToBytes(pages, headers)[1..] == AllToBytes(pages[1..], headers);
    }
  }

  /** A view of the stream holds all of its first header, or is a part of it. */
  lemma {:induction false} HeaderInView(view: seq<Byte>, bytes: seq<Byte>, rest: seq<Byte>, all: seq<Byte>)
    requires view <= all && all == bytes + rest
    ensures if |bytes| <= |view| then bytes <= view else view < bytes
  {
    assert view == all[..|view|];
  }
}
