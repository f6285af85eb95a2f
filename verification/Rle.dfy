/**
The run-length / bit-packing hybrid as a format: runs, their bytes, and what a byte
string denotes. Encoder and decoder are proved against these functions.
 */
module Rle {
  import opened Options
  import opened Bits
  import opened BitWriting
  import opened BitReading
  import opened BitPacking

  const MAX_GROUPS := 63
  const INT32_MAX := 0x7FFF_FFFF
  const MAX_REPEAT := 0x3FFF_FFFF  // the indicator of a longer run turns negative

  datatype Run =
    | Literal(vs: seq<nat>)
    | Repeated(count: nat, value: nat)
  {
    function Values(): seq<nat> {
      match this
      case Literal(vs) => vs
      case Repeated(count, value) => Repeat(value, count)
    }

    function Code(w: nat): BitString {
      match this
      case Literal(vs) => LiteralHeader(|vs| / 8) + Pack(vs, w)
      case Repeated(count, value) => Vlq(IndicatorArgument(count)) + ToBits(value, ValueBits(w))
    }

    /** The runs the encoder writes: literals of 1 to 63 groups, repeats of a 31-bit length. */
    predicate Valid(w: nat) {
      match this
      case Literal(vs) => 8 <= |vs| <= 8 * MAX_GROUPS && |vs| % 8 == 0 && AllBelow(vs, Pow2(w))
      case Repeated(count, value) => 1 <= count <= RepeatLimit(w) && value < Pow2(w)
    }

    /** The runs whose header a reader understands. */
    predicate Readable() {
      this.Repeated? ==> count <= MAX_REPEAT
    }
  }

  /** The longest repeat that can be counted. Without any bits for the value, the header of a
      run beyond 2^30 may not fit the buffer. */
  function RepeatLimit(w: nat): nat {
    if w == 0 then MAX_REPEAT else INT32_MAX
  }

  /** `int32_t indicator_value = repeat_count_ << 1`, converted to the 64-bit argument of the VLQ writer. */
  function IndicatorArgument(repeat_count: nat): nat {
    var low := 2 * repeat_count % 0x1_0000_0000;
    if low < 0x8000_0000 then low else low + 0xFFFF_FFFF_0000_0000
  }

  lemma {:induction false} IndicatorIsDouble(count: nat)
    requires count <= MAX_REPEAT
    ensures IndicatorArgument(count) == 2 * count
  {
  }

  /** Read as a signed number of 64 bits, it is what the doubled count is in 32 bits: negative from 2^30 on. */
  lemma {:induction false} IndicatorIsSigned(count: nat)
    requires count <= 0x7FFF_FFFF
    ensures IndicatorArgument(count) == if count < 0x4000_0000 then 2 * count else 0x1_0000_0000_0000_0000 + 2 * count - 0x1_0000_0000
  {
  }

  function Repeat(value: nat, count: nat): (vs: seq<nat>)
    ensures |vs| == count
  {
    seq(count, _ => value)
  }

  /** A repeated value takes whole bytes. */
  function ValueBits(w: nat): nat {
    8 * CeilDiv8(w)
  }

  function LiteralHeader(groups: nat): (b: BitString)
    ensures |b| == 8
  {
    ToBits(2 * groups + 1, 8)
  }

  function Serialize(runs: seq<Run>, w: nat): BitString {
    if runs == [] then [] else Serialize(runs[..|runs| - 1], w) + runs[|runs| - 1].Code(w)
  }

  function Expand(runs: seq<Run>): seq<nat> {
    if runs == [] then [] else Expand(runs[..|runs| - 1]) + runs[|runs| - 1].Values()
  }

  predicate AllValid(runs: seq<Run>, w: nat) {
    forall i :: 0 <= i < |runs| ==> runs[i].Valid(w)
  }

  predicate AllReadable(runs: seq<Run>) {
    forall i :: 0 <= i < |runs| ==> runs[i].Readable()
  }

  lemma {:induction false} SerializeNone(w: nat)
    ensures Serialize([], w) == [] && Expand([]) == []
  {
  }

  lemma {:induction false} SerializeOne(runs: seq<Run>, run: Run, w: nat)
    ensures Serialize(runs + [run], w) == Serialize(runs, w) + run.Code(w)
    ensures Expand(runs + [run]) == Expand(runs) + run.Values()
  {
    assert (runs + [run])[..|runs|] == runs;
  }

  lemma {:induction false} SerializeAppend(a: seq<Run>, b: seq<Run>, w: nat)
    ensures Serialize(a + b, w) == Serialize(a, w) + Serialize(b, w)
    ensures Expand(a + b) == Expand(a) + Expand(b)
  {
    if b == [] {
      assert a + b == a;
    } else {
      var front, last := b[..|b| - 1], b[|b| - 1];
      SerializeAppend(a, front, w);
      FrontAndLast(b);
      Associate(a, front, [last]);
      SerializeOne(a + front, last, w);
      Associate(Serialize(a, w), Serialize(front, w), last.Code(w));
      Associate(Expand(a), Expand(front), last.Values());
    }
  }

  // ----- Denotation of arbitrary bytes -----

  /** A run header as the decoder reads it: a 32-bit VLQ of at most five bytes. */
  datatype Header = NoHeader | LiteralRun(count: nat, bits: nat) | RepeatedRun(count: nat, bits: nat)

  function ReadHeader(b: BitString): (h: Header)
    ensures !h.NoHeader? ==> 0 < h.bits <= |b| && h.count <= INT32_MAX
  {
    match VlqGroups(b, 5)
    case None => NoHeader
    case Some(g) =>
      var indicator := Nat(Resize(g, 32));
      IndicatorBound(g);
      var count := indicator / 2;
      if indicator % 2 == 0 then RepeatedRun(count, VlqBits(g))
      else if count > INT32_MAX / 8 then NoHeader
      else LiteralRun(8 * count, VlqBits(g))
  }

  lemma {:induction false} IndicatorBound(g: BitString)
    ensures Nat(Resize(g, 32)) / 2 <= INT32_MAX
  {
    Pow2Values();
    NatBound(Resize(g, 32));
  }

  /** The values a byte string denotes; a truncated run ends the stream. */
  function Decode(b: BitString, w: nat): seq<nat>
    decreases |b|
  {
    match ReadHeader(b)
    case NoHeader => []
    case LiteralRun(count, bits) =>
      var rest := b[bits..];
      var n := Available(count, w, |rest|);
      Unpack(rest, w, n) + (if n == count then Decode(rest[Span(n, w)..], w) else [])
    case RepeatedRun(count, bits) =>
      var rest := b[bits..];
      if |rest| < ValueBits(w) then []
      else Repeat(Nat(rest[..ValueBits(w)]), count) + Decode(rest[ValueBits(w)..], w)
  }

  /** `n` literals still to come, then further runs. */
  function DecodeLiterals(b: BitString, w: nat, n: nat): seq<nat> {
    var m := Available(n, w, |b|);
    Unpack(b, w, m) + (if m == n then Decode(b[Span(m, w)..], w) else [])
  }

  /** How many of these values come before a literal run that the end of the bytes cuts off. */
  function Whole(b: BitString, w: nat): nat
    decreases |b|
  {
    match ReadHeader(b)
    case NoHeader => 0
    case LiteralRun(count, bits) =>
      var rest := b[bits..];
      if Available(count, w, |rest|) < count then 0 else count + Whole(rest[Span(count, w)..], w)
    case RepeatedRun(count, bits) =>
      var rest := b[bits..];
      if |rest| < ValueBits(w) then 0 else count + Whole(rest[ValueBits(w)..], w)
  }

  function WholeLiterals(b: BitString, w: nat, n: nat): nat {
    if Available(n, w, |b|) < n then 0 else n + Whole(b[Span(n, w)..], w)
  }

  lemma {:induction false} WholeAtMost(b: BitString, w: nat)
    ensures Whole(b, w) <= |Decode(b, w)|
    decreases |b|
  {
    hide Nat, Unpack, Available, Span;
    match ReadHeader(b)
    case NoHeader =>
    case LiteralRun(count, bits) =>
      var rest := b[bits..];
      if Available(count, w, |rest|) == count {
        WholeAtMost(rest[Span(count, w)..], w);
      }
    case RepeatedRun(count, bits) =>
      var rest := b[bits..];
      if |rest| >= ValueBits(w) {
        WholeAtMost(rest[ValueBits(w)..], w);
      }
  }

  // ----- Decoding inverts serializing -----

  lemma {:induction false} HeaderOf(n: nat, rest: BitString)
    requires n < 0x1_0000_0000
    ensures |Vlq(n)| <= 40
    ensures ReadHeader(Vlq(n) + rest) ==
      if n % 2 == 0 then RepeatedRun(n / 2, |Vlq(n)|)
      else if n / 2 > INT32_MAX / 8 then NoHeader else LiteralRun(8 * (n / 2), |Vlq(n)|)
  {
    hide Nat, Vlq, VlqGroups, Pow2;
    Pow2Values();
    Pow2Monotonic(32, 35);
    VlqLength(n, 5);
    VlqRoundTrip(n, 5, rest);
    ValueFits(VlqGroups(Vlq(n) + rest, 5).value, 32);
  }

  lemma {:induction false} AvailableAll(n: nat, w: nat, remaining: nat)
    requires Span(n, w) <= remaining
    ensures Available(n, w, remaining) == n
  {
  }

  /** A literal run whose header has been read. */
  lemma {:induction false} DecodeAfterLiteralHeader(header: BitString, packed: BitString, rest: BitString, count: nat, w: nat)
    requires ReadHeader(header + (packed + rest)) == LiteralRun(count, |header|)
    requires Span(count, w) == |packed|
    ensures Decode(header + (packed + rest), w) == Unpack(packed + rest, w, count) + Decode(rest, w)
    ensures Whole(header + (packed + rest), w) == count + Whole(rest, w)
  {
    AvailableAll(count, w, |packed + rest|);
    hide ReadHeader, Available, Unpack;
    Parts(header, packed + rest);
    Parts(packed, rest);
  }

  lemma {:induction false} DecodeLiteralRun(vs: seq<nat>, w: nat, rest: BitString)
    requires Literal(vs).Valid(w)
    ensures Decode(Literal(vs).Code(w) + rest, w) == vs + Decode(rest, w)
    ensures Whole(Literal(vs).Code(w) + rest, w) == |vs| + Whole(rest, w)
  {
    hide Decode, Whole, ReadHeader, Nat, Pow2, Unpack;
    var groups := |vs| / 8;
    var header, packed := LiteralHeader(groups), Pack(vs, w);
    assert Vlq(2 * groups + 1) == header;
    HeaderOf(2 * groups + 1, packed + rest);
    UnpackOfPack(vs, w, rest);
    DecodeAfterLiteralHeader(header, packed, rest, |vs|, w);
    Associate(header, packed, rest);
  }

  /** A repeated run whose header has been read. */
  lemma {:induction false} DecodeAfterHeader(header: BitString, stored: BitString, rest: BitString, count: nat, w: nat)
    requires ReadHeader(header + (stored + rest)) == RepeatedRun(count, |header|)
    requires |stored| == ValueBits(w)
    ensures Decode(header + (stored + rest), w) == Repeat(Nat(stored), count) + Decode(rest, w)
    ensures Whole(header + (stored + rest), w) == count + Whole(rest, w)
  {
    hide ReadHeader, Nat;
    Parts(header, stored + rest);
    Parts(stored, rest);
  }

  lemma {:induction false} DecodeRepeatedRun(count: nat, value: nat, w: nat, rest: BitString)
    requires Repeated(count, value).Valid(w) && count <= MAX_REPEAT
    ensures Decode(Repeated(count, value).Code(w) + rest, w) == Repeat(value, count) + Decode(rest, w)
    ensures Whole(Repeated(count, value).Code(w) + rest, w) == count + Whole(rest, w)
  {
    hide Decode, Whole, ReadHeader, Vlq, Nat, Pow2, ToBits, IndicatorArgument;
    IndicatorIsDouble(count);
    var header, stored := Vlq(2 * count), ToBits(value, ValueBits(w));
    HeaderOf(2 * count, stored + rest);
    DecodeAfterHeader(header, stored, rest, count, w);
    Associate(header, stored, rest);
    Pow2Monotonic(w, ValueBits(w));
    NatOfToBits(value, ValueBits(w));
  }

  lemma {:induction false} DecodeRun(run: Run, w: nat, rest: BitString)
    requires run.Valid(w) && run.Readable()
    ensures Decode(run.Code(w) + rest, w) == run.Values() + Decode(rest, w)
    ensures Whole(run.Code(w) + rest, w) == |run.Values()| + Whole(rest, w)
  {
    hide Decode, Whole, Run.Code;
    match run
    case Literal(vs) => DecodeLiteralRun(vs, w, rest);
    case Repeated(count, value) => DecodeRepeatedRun(count, value, w, rest);
  }

  /** Serialized runs denote their values, none of them cut off, and leave what follows to be
      decoded next. */
  lemma {:induction false} DecodeInvertsSerialize(runs: seq<Run>, w: nat, rest: BitString)
    requires AllValid(runs, w) && AllReadable(runs)
    ensures Decode(Serialize(runs, w) + rest, w) == Expand(runs) + Decode(rest, w)
    ensures Whole(Serialize(runs, w) + rest, w) == |Expand(runs)| + Whole(rest, w)
    decreases |runs|
  {
    hide Decode, Whole;
    if runs == [] {
      assert Serialize(runs, w) + rest == rest;
      assert Expand(runs) + Decode(rest, w) == Decode(rest, w);
    } else {
      var front, last := runs[..|runs| - 1], runs[|runs| - 1];
      Associate(Serialize(front, w), last.Code(w), rest);
      DecodeInvertsSerialize(front, w, last.Code(w) + rest);
      DecodeRun(last, w, rest);
      Associate(Expand(front), last.Values(), Decode(rest, w));
    }
  }

  // ----- Runs that are too long -----

  /** The header of a repeated run tells its length exactly up to 2^30 - 1 repetitions. From
      there on the indicator turns negative and takes ten bytes, more than a reader accepts. */
  lemma {:induction false} RunLengthIsReadBack(repeat_count: nat, rest: BitString)
    requires 1 <= repeat_count <= INT32_MAX
    ensures repeat_count <= MAX_REPEAT <==>
      exists bits :: ReadHeader(Vlq(IndicatorArgument(repeat_count)) + rest) == RepeatedRun(repeat_count, bits)
    ensures repeat_count > MAX_REPEAT ==> ReadHeader(Vlq(IndicatorArgument(repeat_count)) + rest) == NoHeader
  {
    hide Nat, ToBits, Pow2, ReadHeader, Vlq;
    var n := IndicatorArgument(repeat_count);
    if repeat_count <= MAX_REPEAT {
      HeaderOf(n, rest);
    } else {
      VlqIsLong(n);
      LongVlqUnreadable(n, 5, rest);
      NoGroupsNoHeader(Vlq(n) + rest);
    }
  }

  lemma {:induction false} NoGroupsNoHeader(b: BitString)
    requires VlqGroups(b, 5) == None
    ensures ReadHeader(b) == NoHeader
  {
  }

  lemma {:induction false} HeaderOfGroups(b: BitString, g: BitString)
    requires VlqGroups(b, 5) == Some(g)
    ensures var indicator := Nat(Resize(g, 32));
      ReadHeader(b) ==
        if indicator % 2 == 0 then RepeatedRun(indicator / 2, VlqBits(g))
        else if indicator / 2 > INT32_MAX / 8 then NoHeader else LiteralRun(8 * (indicator / 2), VlqBits(g))
  {
    hide VlqGroups, Nat, Resize;
    IndicatorBound(g);
  }

  lemma {:induction false} VlqIsLong(n: nat)
    requires n >= 0x8_0000_0000
    ensures |Vlq(n)| > 40
  {
    assert n / 128 / 128 / 128 / 128 / 128 >= 1;
    assert |Vlq(n / 128 / 128 / 128 / 128 / 128)| >= 8;
    assert |Vlq(n / 128 / 128 / 128 / 128)| >= 16;
    assert |Vlq(n / 128 / 128 / 128)| >= 24;
    assert |Vlq(n / 128 / 128)| >= 32;
    assert |Vlq(n / 128)| >= 40;
  }

  lemma {:induction false} LongVlqUnreadable(n: nat, limit: nat, rest: BitString)
    requires |Vlq(n)| > 8 * limit
    ensures VlqGroups(Vlq(n) + rest, limit) == None
  {
    if limit > 0 {
      VlqByteParts(n);
      var tail := Vlq(n / 128) + rest;
      Associate(VlqByte(n), Vlq(n / 128), rest);
      Parts(VlqByte(n), tail);
      assert (Vlq(n) + rest)[7] == VlqByte(n)[7];
      LongVlqUnreadable(n / 128, limit - 1, rest);
    }
  }

  /** A run that is too long ends the stream for a reader. */
  lemma {:induction false} DecodeStops(run: Run, w: nat, rest: BitString)
    requires run.Valid(w) && !run.Readable()
    ensures Decode(run.Code(w) + rest, w) == []
  {
    hide ReadHeader, Vlq, ToBits, Pow2, IndicatorArgument;
    var stored := ToBits(run.value, ValueBits(w));
    RunLengthIsReadBack(run.count, stored + rest);
    Associate(Vlq(IndicatorArgument(run.count)), stored, rest);
  }

  /** A stream denotes the values of its runs and what follows, unless a run is too long: then
      more than 2^30 - 1 values are missing. */
  lemma {:induction false} DecodeFallsShort(runs: seq<Run>, w: nat, rest: BitString)
    requires AllValid(runs, w) && !AllReadable(runs)
    ensures |Decode(Serialize(runs, w) + rest, w)| + MAX_REPEAT < |Expand(runs)|
    decreases |runs|
  {
    hide Decode, Whole, Run.Code;
    var front, last := runs[..|runs| - 1], runs[|runs| - 1];
    Associate(Serialize(front, w), last.Code(w), rest);
    if AllReadable(front) {
      DecodeInvertsSerialize(front, w, last.Code(w) + rest);
      DecodeStops(last, w, rest);
    } else {
      DecodeFallsShort(front, w, last.Code(w) + rest);
    }
  }

  /** Zero padding after the input is all that a flushed stream adds. */
  ghost predicate PaddedBy(values: seq<nat>, input: seq<nat>, padding: nat) {
    values == input + Repeat(0, padding) && padding < 8
  }

  lemma {:induction false} FlushedDecodes(runs: seq<Run>, w: nat, input: seq<nat>, padding: nat, rest: BitString)
    requires AllValid(runs, w) && AllReadable(runs) && PaddedBy(Expand(runs), input, padding)
    ensures Decode(Serialize(runs, w) + rest, w) == input + (Repeat(0, padding) + Decode(rest, w))
    ensures input <= Decode(Serialize(runs, w), w)
  {
    hide Serialize, Expand, Decode, Whole, AllValid, AllReadable;
    DecodeInvertsSerialize(runs, w, rest);
    DecodeInvertsSerialize(runs, w, []);
    Associate(input, Repeat(0, padding), Decode(rest, w));
    Associate(input, Repeat(0, padding), Decode([], w));
    assert Serialize(runs, w) + [] == Serialize(runs, w);
  }

  /** Padded runs give the input back if and only if none of them is too long. */
  lemma {:induction false} ReadBackIffReadable(runs: seq<Run>, w: nat, input: seq<nat>, padding: nat)
    requires AllValid(runs, w) && PaddedBy(Expand(runs), input, padding)
    ensures input <= Decode(Serialize(runs, w), w) <==> AllReadable(runs)
  {
    hide Serialize, Expand, Decode, AllValid, AllReadable;
    if AllReadable(runs) {
      FlushedDecodes(runs, w, input, padding, []);
    } else {
      DecodeFallsShort(runs, w, []);
      assert Serialize(runs, w) + [] == Serialize(runs, w);
    }
  }

  // ----- Sizes -----

  function MinBufferSize(w: nat): nat {
    Max(1 + CeilDiv8(8 * (MAX_GROUPS + 1) * w), 5 + CeilDiv8(w))
  }

  function MaxBufferSize(w: nat, num_values: nat): nat {
    var num_runs := CeilDiv8(num_values);
    Max(num_runs + num_runs * w, num_runs * (1 + CeilDiv8(w)))
  }

  lemma {:induction false} MinBufferSizeFacts(w: nat)
    ensures MinBufferSize(w) >= 1 + 64 * w && MinBufferSize(w) >= 5 + CeilDiv8(w)
    ensures MinBufferSize(w) == if w == 0 then 5 else 1 + 64 * w
  {
  }

  /** Every repeated run is as long as a group. */
  predicate AllLong(runs: seq<Run>) {
    forall i :: 0 <= i < |runs| ==> runs[i].Repeated? ==> runs[i].count >= 8
  }

  /** The bits `groups` groups may take. */
  function Budget(groups: nat, w: nat): nat {
    8 * Span(groups, 1 + w)
  }

  lemma {:induction false} BudgetParts(groups: nat, w: nat)
    ensures Budget(groups, w) == 8 * groups + 8 * Span(groups, w)
  {
    SpanWider(groups, 1, w);
    SpanOfOnes(groups);
  }

  lemma {:induction false} BudgetAdd(a: nat, b: nat, w: nat)
    ensures Budget(a + b, w) == Budget(a, w) + Budget(b, w)
  {
    SpanAdd(a, b, 1 + w);
  }

  lemma {:induction false} BudgetMonotonic(a: nat, b: nat, w: nat)
    requires a <= b
    ensures Budget(a, w) <= Budget(b, w)
  {
    SpanMonotonic(a, b, 1 + w);
  }

  lemma {:induction false} BudgetIsMaxBufferSize(n: nat, w: nat)
    ensures Budget(CeilDiv8(n), w) == 8 * MaxBufferSize(w, n)
  {
    hide CeilDiv8;
    var g := CeilDiv8(n);
    BudgetParts(g, w);
    SpanIsProduct(g, w);
    BytesForBits(w);
    Products(g, CeilDiv8(w), w);
  }

  lemma {:induction false} BytesForBits(w: nat)
    ensures CeilDiv8(w) <= w
  {
  }

  lemma {:induction false} Products(g: nat, a: nat, b: nat)
    requires a <= b
    ensures g * (1 + a) <= g + g * b
  {
    assert g * (1 + a) == g + g * a <= g + g * b;
  }

  lemma {:induction false} RepeatHeaderSize(count: nat)
    requires 1 <= count <= INT32_MAX
    ensures |Vlq(IndicatorArgument(count))| <= if count <= MAX_REPEAT then 40 else 80
    ensures count < 64 ==> |Vlq(IndicatorArgument(count))| == 8
    ensures count >= 8 ==> |Vlq(IndicatorArgument(count))| <= 8 * (count / 8)
  {
    if count <= MAX_REPEAT {
      IndicatorIsDouble(count);
      hide IndicatorArgument, ReadHeader;
      HeaderOf(2 * count, []);
    } else {
      hide IndicatorArgument, Vlq, ReadHeader;
      LongHeaderSize(count);
    }
  }

  lemma {:induction false} LongHeaderSize(count: nat)
    requires count <= INT32_MAX
    ensures |Vlq(IndicatorArgument(count))| <= 80
  {
    hide Vlq, Pow2;
    var n := IndicatorArgument(count);
    Pow2Values();
    Pow2Monotonic(64, 70);
    VlqLength(n, 10);
  }

  lemma {:induction false} LiteralCost(groups: nat, w: nat)
    requires groups >= 1
    ensures 8 + Span(8 * groups, w) <= Budget(groups, w)
  {
    BudgetParts(groups, w);
    SpanOfGroups(groups, w);
  }

  lemma {:induction false} RunCost(run: Run, w: nat)
    requires run.Valid(w) && (run.Repeated? ==> run.count >= 8)
    ensures |run.Code(w)| <= Budget(|run.Values()| / 8, w)
  {
    hide Budget, Vlq, ToBits, Pow2, AllBelow, IndicatorArgument, Pack, Span;
    match run
    case Literal(vs) =>
      LiteralCost(|vs| / 8, w);
    case Repeated(count, value) =>
      RepeatCost(count, w);
  }

  lemma {:induction false} RepeatCost(count: nat, w: nat)
    requires 8 <= count <= INT32_MAX
    ensures |Vlq(IndicatorArgument(count))| + ValueBits(w) <= Budget(count / 8, w)
  {
    hide Vlq, Budget, Span, IndicatorArgument;
    var g := count / 8;
    RepeatHeaderSize(count);
    BudgetParts(g, w);
    SpanMonotonic(1, g, w);
    SpanIsProduct(1, w);
    assert CeilDiv8(w) <= w;
  }

  /** Runs of at least a group each fit their budget. */
  lemma {:induction false} SerializeCost(runs: seq<Run>, w: nat)
    requires AllValid(runs, w) && AllLong(runs)
    ensures |Serialize(runs, w)| <= Budget(|Expand(runs)| / 8, w)
    decreases |runs|
  {
    hide Budget, Serialize, Expand, Run.Code, Run.Values, Run.Valid;
    if runs == [] {
      SerializeNone(w);
    } else {
      var front, last := runs[..|runs| - 1], runs[|runs| - 1];
      FrontAndLast(runs);
      SerializeOne(front, last, w);
      SerializeCost(front, w);
      RunCost(last, w);
      var a, b := |Expand(front)|, |last.Values()|;
      BudgetAdd(a / 8, b / 8, w);
      BudgetMonotonic(a / 8 + b / 8, (a + b) / 8, w);
    }
  }

  /** Whatever the runs, widths up to 32 take at most nine bytes a value. */
  lemma {:induction false} RunRoom(run: Run, w: nat)
    requires run.Valid(w) && w <= 32
    ensures |run.Code(w)| <= 72 * |run.Values()|
  {
    hide Vlq, ToBits, Pow2, AllBelow, Span, IndicatorArgument;
    match run
    case Literal(vs) => SpanAtMost(|vs|, w, 32);
    case Repeated(count, value) => RepeatHeaderSize(count);
  }

  lemma {:induction false} SerializeRoom(runs: seq<Run>, w: nat)
    requires AllValid(runs, w) && w <= 32
    ensures |Serialize(runs, w)| <= 72 * |Expand(runs)|
    decreases |runs|
  {
    hide Run.Code, Run.Values, Run.Valid;
    if runs != [] {
      SerializeRoom(runs[..|runs| - 1], w);
      RunRoom(runs[|runs| - 1], w);
    }
  }

  /** Valid runs take whole bytes. */
  lemma {:induction false} CodeBytes(run: Run, w: nat)
    requires run.Valid(w)
    ensures |run.Code(w)| % 8 == 0
  {
    hide Vlq, ToBits, Pow2, AllBelow, Pack, Span, IndicatorArgument;
    if run.Literal? {
      SpanOfGroups(|run.vs| / 8, w);
    }
  }

  lemma {:induction false} SerializeBytes(runs: seq<Run>, w: nat)
    requires AllValid(runs, w)
    ensures |Serialize(runs, w)| % 8 == 0
    decreases |runs|
  {
    hide Run.Code, Run.Valid;
    if runs != [] {
      SerializeBytes(runs[..|runs| - 1], w);
      CodeBytes(runs[|runs| - 1], w);
    }
  }
}
