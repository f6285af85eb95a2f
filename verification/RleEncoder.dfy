/**
The hybrid encoder: values are buffered eight at a time; a full group extends the open
literal run or starts a repeated run, and a run is written out when the mode changes.
The indicator byte of a literal run is reserved first and filled in when the run closes.

Ghost state: `runs` are the runs already written out, `open` the values of the literal
run whose indicator is still missing, `input` every value put so far.
 */
module RleEncoding {
  import opened Options
  import opened Bits
  import opened BitWriting
  import opened BitReading
  import opened BitPacking
  import opened Rle

  // ----- How values are counted -----

  /** The repeat and the group being buffered after `s`, when no buffer gets full: both counts
      start over with a group of literals, and the group does with a repeated run. */
  datatype Counts = Counts(repeat: nat, buffered: nat)

  function CountsAfter(s: seq<nat>): Counts {
    if s == [] then Counts(0, 0)
    else
      var front, n := s[..|s| - 1], |s| - 1;
      var c := CountsAfter(front);
      CountOne(if n > 0 && s[n - 1] == s[n] then c.repeat + 1 else 1, c.buffered)
  }

  /** One more value, which makes the repeat `repeat` long. */
  function CountOne(repeat: nat, buffered: nat): Counts {
    if repeat > 8 then Counts(repeat, buffered)
    else if buffered + 1 != 8 then Counts(repeat, buffered + 1)
    else Counts(if repeat == 8 then 8 else 0, 0)
  }

  /** A repeated run gets so long that its header cannot be read. */
  predicate LongRun(s: seq<nat>) {
    s != [] && (LongRun(s[..|s| - 1]) || CountsAfter(s).repeat > MAX_REPEAT)
  }

  /** How many values `v` there are at the end. */
  function Trailing(s: seq<nat>, v: nat): (n: nat)
    ensures n <= |s|
  {
    if s == [] || s[|s| - 1] != v then 0 else 1 + Trailing(s[..|s| - 1], v)
  }

  /** No value comes 2^30 times in a row. */
  predicate RunsFit(s: seq<nat>) {
    forall n :: 0 <= n < |s| ==> Trailing(s[..n], s[n]) < MAX_REPEAT
  }

  lemma {:induction false} RepeatIsTrailing(s: seq<nat>)
    requires s != []
    ensures CountsAfter(s).repeat <= Trailing(s, s[|s| - 1])
  {
    var n := |s| - 1;
    if n > 0 {
      RepeatIsTrailing(s[..n]);
    }
  }

  /** Then no repeated run is too long, wherever literals and full buffers cut the runs. */
  lemma {:induction false} RunsFitIsNotLong(s: seq<nat>)
    requires RunsFit(s)
    ensures !LongRun(s)
    decreases |s|
  {
    hide CountsAfter, Trailing;
    if s != [] {
      var n := |s| - 1;
      RunsFitBefore(s[..n], s[n]);
      FrontAndLast(s);
      RunsFitIsNotLong(s[..n]);
      RepeatIsTrailing(s);
      TrailingOneMore(s[..n], s[n]);
    }
  }

  lemma {:induction false} TrailingOneMore(s: seq<nat>, v: nat)
    ensures Trailing(s + [v], v) == 1 + Trailing(s, v)
  {
    assert (s + [v])[..|s|] == s;
  }

  lemma {:induction false} RunsFitBefore(s: seq<nat>, v: nat)
    ensures RunsFit(s + [v]) <==> RunsFit(s) && Trailing(s, v) < MAX_REPEAT
  {
    hide Trailing;
    var t := s + [v];
    forall n | 0 <= n < |s| ensures t[..n] == s[..n] && t[n] == s[n] {
    }
    assert t[..|s|] == s && t[|s|] == v;
  }

  /** A value that comes 2^30 + 7 times in a row does make a run too long. */
  lemma {:induction false} LoseAtMostSeven(s: seq<nat>)
    requires s != []
    ensures var t, c := Trailing(s, s[|s| - 1]), CountsAfter(s);
      && c.buffered < 8 && (c.repeat >= 8 ==> c.buffered == 0) && c.repeat <= t <= c.repeat + 7
      && (t > c.repeat ==> c.repeat >= 8 || c.repeat == c.buffered)
      && (c.repeat < 8 && t == c.repeat ==> c.repeat <= c.buffered)
  {
    var n := |s| - 1;
    if n > 0 {
      LoseAtMostSeven(s[..n]);
    }
  }

  lemma {:induction false} LongTrailing(s: seq<nat>, v: nat)
    requires Trailing(s, v) > MAX_REPEAT + 7
    ensures LongRun(s)
  {
    LoseAtMostSeven(s);
  }

  // ----- The runs of a sequence of values -----

  /** How many values at the start are equal. */
  function Leading(s: seq<nat>): (n: nat)
    ensures n <= |s| && (s != [] ==> n > 0)
  {
    if s == [] then 0 else if |s| == 1 || s[1] != s[0] then 1 else 1 + Leading(s[1..])
  }

  /** The last group of literals, if any is left: padded with zeros to eight values. */
  function Padded(s: seq<nat>): seq<nat>
    requires |s| < 8
  {
    if s == [] then [] else s + Repeat(0, 8 - |s|)
  }

  /** The runs that values are cut into from the front, with the literals collected so far: eight
      or more equal values at a time are a repeated run; others go into a literal run, eight by
      eight, which ends with 63 groups; and what is left in the end is a repeated run if it is all
      there is since the last run and of one kind, or else the last, padded group of literals. */
  function Hybrid(s: seq<nat>, literals: seq<nat>): seq<Run>
    decreases |s|
  {
    if s == [] then Collected(literals)
    else
      var k := Leading(s);
      if k >= 8 then Collected(literals) + [Repeated(k, s[0])] + Hybrid(s[k..], [])
      else if |s| < 8 then
        if literals == [] && k == |s| then [Repeated(k, s[0])] else [Literal(literals + Padded(s))]
      else if |literals| + 8 == 8 * 63 then [Literal(literals + s[..8])] + Hybrid(s[8..], [])
      else Hybrid(s[8..], literals + s[..8])
  }

  function Collected(literals: seq<nat>): seq<Run> {
    if literals == [] then [] else [Literal(literals)]
  }

  /** Whatever comes next, the runs of all values are those written so far and then those of what
      is waiting, behind the literals of the open run. */
  ghost predicate Tracks(all: seq<nat>, runs: seq<Run>, open: seq<nat>, waiting: seq<nat>) {
    forall t :: Hybrid(all + t, []) == runs + Hybrid(waiting + t, open)
  }

  lemma {:induction false} TracksNothing()
    ensures Tracks([], [], [], [])
  {
    hide Hybrid;
    forall t ensures Hybrid([] + t, []) == [] + Hybrid([] + t, []) {
    }
  }

  lemma {:induction false} TracksOneMore(all: seq<nat>, runs: seq<Run>, open: seq<nat>, waiting: seq<nat>, v: nat)
    requires Tracks(all, runs, open, waiting)
    ensures Tracks(all + [v], runs, open, waiting + [v])
  {
    hide Hybrid;
    forall t ensures Hybrid(all + [v] + t, []) == runs + Hybrid(waiting + [v] + t, open) {
      Associate(all, [v], t);
      Associate(waiting, [v], t);
    }
  }

  lemma {:induction false} LeadingOfRepeat(v: nat, n: nat, t: seq<nat>)
    requires n > 0
    ensures Leading(Repeat(v, n) + t) >= n
    ensures t == [] || t[0] != v ==> Leading(Repeat(v, n) + t) == n
  {
    var s := Repeat(v, n) + t;
    if n > 1 {
      assert s[1..] == Repeat(v, n - 1) + t;
      LeadingOfRepeat(v, n - 1, t);
    } else {
      assert s[1..] == t;
    }
  }

  lemma {:induction false} LeadingStops(s: seq<nat>, n: nat)
    requires n < |s| && s[n] != s[0]
    ensures Leading(s) <= n
  {
    if n > 1 && s[1] == s[0] {
      LeadingStops(s[1..], n - 1);
    }
  }

  /** A repeated run that is over, since another value follows. */
  lemma {:induction false} TracksRepeat(all: seq<nat>, runs: seq<Run>, v: nat, n: nat, next: nat)
    requires Tracks(all, runs, [], Repeat(v, n)) && n >= 8 && next != v
    ensures Tracks(all + [next], runs + [Repeated(n, v)], [], [next])
  {
    hide Hybrid;
    forall t ensures Hybrid(all + [next] + t, []) == runs + [Repeated(n, v)] + Hybrid([next] + t, []) {
      var rest := [next] + t;
      Associate(all, [next], t);
      LeadingOfRepeat(v, n, rest);
      HybridRepeat(v, n, rest, []);
      Associate(runs, [Repeated(n, v)], Hybrid(rest, []));
    }
  }

  lemma {:induction false} HybridRepeat(v: nat, n: nat, rest: seq<nat>, literals: seq<nat>)
    requires n >= 8 && (rest == [] || rest[0] != v)
    ensures Hybrid(Repeat(v, n) + rest, literals) == Collected(literals) + ([Repeated(n, v)] + Hybrid(rest, []))
  {
    hide Hybrid;
    LeadingOfRepeat(v, n, rest);
    var s := Repeat(v, n) + rest;
    assert s[n..] == rest && s[0] == v;
    HybridLong(s, n, literals);
    Associate(Collected(literals), [Repeated(n, v)], Hybrid(rest, []));
  }

  lemma {:induction false} HybridLong(s: seq<nat>, k: nat, literals: seq<nat>)
    requires s != [] && k == Leading(s) >= 8
    ensures Hybrid(s, literals) == Collected(literals) + [Repeated(k, s[0])] + Hybrid(s[k..], [])
  {
    hide Leading, Padded, Repeat;
  }

  /** Eight equal values end the literal run before them. */
  lemma {:induction false} TracksEndOfLiterals(all: seq<nat>, runs: seq<Run>, open: seq<nat>, v: nat)
    requires Tracks(all, runs, open, Repeat(v, 8)) && open != []
    ensures Tracks(all, runs + [Literal(open)], [], Repeat(v, 8))
  {
    hide Hybrid;
    forall t ensures Hybrid(all + t, []) == runs + [Literal(open)] + Hybrid(Repeat(v, 8) + t, []) {
      HybridBehind(Repeat(v, 8) + t, open, v, t);
      Associate(runs, [Literal(open)], Hybrid(Repeat(v, 8) + t, []));
    }
  }

  lemma {:induction false} HybridBehind(s: seq<nat>, open: seq<nat>, v: nat, t: seq<nat>)
    requires s == Repeat(v, 8) + t && open != []
    ensures Hybrid(s, open) == [Literal(open)] + Hybrid(s, [])
  {
    hide Hybrid;
    LeadingOfRepeat(v, 8, t);
    var k := Leading(s);
    HybridLong(s, k, open);
    HybridLong(s, k, []);
    Associate([Literal(open)], [Repeated(k, s[0])], Hybrid(s[k..], []));
    assert [] + [Repeated(k, s[0])] == [Repeated(k, s[0])];
  }

  /** A group that is not of one kind joins the literals, and ends the run if it is the 63rd. */
  lemma {:induction false} TracksGroup(all: seq<nat>, runs: seq<Run>, open: seq<nat>, group: seq<nat>, n: nat)
    requires Tracks(all, runs, open, group) && |group| == 8 && n < 8 && group[n] != group[0]
    ensures if |open| + 8 == 504 then Tracks(all, runs + [Literal(open + group)], [], []) else Tracks(all, runs, open + group, [])
  {
    hide Hybrid;
    forall t ensures Hybrid(all + t, []) ==
      if |open| + 8 == 504 then runs + [Literal(open + group)] + Hybrid([] + t, []) else runs + Hybrid([] + t, open + group)
    {
      assert [] + t == t;
      HybridGroup(group, t, open, n);
      Associate(runs, [Literal(open + group)], Hybrid(t, []));
    }
  }

  lemma {:induction false} HybridGroup(group: seq<nat>, t: seq<nat>, open: seq<nat>, n: nat)
    requires |group| == 8 && n < 8 && group[n] != group[0]
    ensures Hybrid(group + t, open) ==
      if |open| + 8 == 504 then [Literal(open + group)] + Hybrid(t, []) else Hybrid(t, open + group)
  {
    var s := group + t;
    LeadingStops(s, n);
    assert s[..8] == group && s[8..] == t;
  }

  /** What is left in the end is one repeated run, */
  lemma {:induction false} TracksLastRepeat(all: seq<nat>, runs: seq<Run>, v: nat, n: nat)
    requires Tracks(all, runs, [], Repeat(v, n)) && n > 0
    ensures Hybrid(all, []) == runs + [Repeated(n, v)]
  {
    assert all + [] == all && Repeat(v, n) + [] == Repeat(v, n);
    LeadingOfRepeat(v, n, []);
    assert Hybrid(Repeat(v, n) + [], []) == [Repeated(n, v)];
  }

  /** or literals, */
  lemma {:induction false} TracksLastLiterals(all: seq<nat>, runs: seq<Run>, open: seq<nat>, waiting: seq<nat>, n: nat)
    requires Tracks(all, runs, open, waiting) && |waiting| < 8 && open + waiting != []
    requires open == [] ==> n < |waiting| && waiting[n] != waiting[0]
    ensures Hybrid(all, []) == runs + [Literal(open + Padded(waiting))]
  {
    assert all + [] == all && waiting + [] == waiting;
    if open == [] {
      LeadingStops(waiting, n);
    }
    assert open + [] == open;
  }

  /** or nothing. */
  lemma {:induction false} TracksToEnd(all: seq<nat>, runs: seq<Run>)
    requires Tracks(all, runs, [], [])
    ensures Hybrid(all, []) == runs
  {
    var nothing: seq<nat> := [];
    assert all + [] == all && nothing + [] == nothing;
    assert runs + [] == runs;
  }

  lemma {:induction false} PaddingOf(s: seq<nat>)
    requires |s| < 8
    ensures Padded(s) == s + Repeat(0, if s == [] then 0 else 8 - |s|)
  {
  }

  class RleEncoder {
    const bit_width: nat
    const bit_writer: BitWriter
    const max_run_byte_size: nat
    var buffer_full: bool
    var buffered_values: seq<nat>
    var num_buffered_values: nat
    var current_value: nat
    var repeat_count: nat
    var literal_count: nat
    var literal_indicator_byte: Option<nat>
    ghost var runs: seq<Run>
    ghost var open: seq<nat>
    ghost var input: seq<nat>

    /** The values not yet part of any run that has been started in the buffer. */
    ghost function Waiting(): seq<nat>
      requires num_buffered_values <= |buffered_values|
      reads this
    {
      if repeat_count >= 8 then Repeat(current_value, repeat_count) else buffered_values[..num_buffered_values]
    }

    /** The closed runs, in bytes of the buffer. */
    ghost function Closed(): BitString
      reads this
    {
      Serialize(runs, bit_width)
    }

    /** The buffer holds the closed runs, room for an indicator, and the literals `vs`. */
    ghost predicate InLiteralRun(vs: seq<nat>)
      reads this, bit_writer
    {
      var stream, closed := bit_writer.stream, Closed();
      && literal_indicator_byte == Some(bit_writer.base + |closed|)
      && |stream| == |closed| + 8 + Span(|vs|, bit_width)
      && |closed| + 8 <= 8 * bit_writer.byte_offset
      && stream[..|closed|] == closed && stream[|closed| + 8..] == Pack(vs, bit_width)
    }

    /** The output so far is in order. */
    ghost predicate Output()
      reads this, bit_writer, bit_writer.buffer
    {
      && 0 <= bit_width <= 64 && max_run_byte_size == MinBufferSize(bit_width)
      && bit_writer.Valid() && bit_writer.Clean() && bit_writer.Padding() == []
      && AllValid(runs, bit_width) && AllBelow(open, Pow2(bit_width))
      && |open| % 8 == 0 && |open| < 8 * MAX_GROUPS
      && (if open == [] then literal_indicator_byte == None && bit_writer.stream == Closed()
          else InLiteralRun(open) && bit_width > 0)
    }

    /** Another run of any kind still fits. */
    ghost predicate RoomForRun()
      reads this, bit_writer
    {
      |Closed()| + 8 * max_run_byte_size <= 8 * bit_writer.max_bytes
    }

    /** The buffered group and the current repeat. */
    ghost predicate Buffering()
      reads this
    {
      && |buffered_values| == 8 && num_buffered_values <= 8
      && current_value < Pow2(bit_width) && AllBelow(buffered_values[..num_buffered_values], Pow2(bit_width))
      && repeat_count <= RepeatLimit(bit_width)
      && (repeat_count < 8 ==> repeat_count <= num_buffered_values)
      && (repeat_count <= num_buffered_values ==>
           forall i :: num_buffered_values - repeat_count <= i < num_buffered_values ==>
             buffered_values[i] == current_value)
      && (bit_width == 0 && repeat_count < 8 ==> repeat_count == num_buffered_values)
      && (num_buffered_values > 0 ==> repeat_count > 0)
      && (repeat_count < num_buffered_values ==> buffered_values[num_buffered_values - 1 - repeat_count] != current_value)
    }

    /** What has been written and what is waiting are the runs of the input. */
    ghost predicate Following()
      requires num_buffered_values <= |buffered_values|
      reads this
    {
      Tracks(input, runs, open, Waiting())
    }

    /** Nothing but a repeated run, or nothing at all, is waiting. */
    ghost predicate PureRepeat()
      reads this
    {
      open == [] && (repeat_count >= 8 || repeat_count == num_buffered_values)
    }

    /** Fullness means that another full-sized run might not fit; a short repeated run does. */
    ghost predicate Fullness()
      reads this, bit_writer
    {
      && (buffer_full <==> !RoomForRun())
      && (buffer_full ==>
           && PureRepeat() && repeat_count <= 8
           && (repeat_count > 0 ==> |Closed()| + 8 + ValueBits(bit_width) <= 8 * bit_writer.max_bytes))
    }

    /** Every value put, in order, wherever it is now. */
    ghost function Content(): seq<nat>
      requires num_buffered_values <= |buffered_values|
      reads this
    {
      Expand(runs) + open + Waiting()
    }

    ghost predicate Sound()
      reads this, bit_writer, bit_writer.buffer
    {
      && Output() && Buffering() && Fullness() && AllLong(runs)
      && literal_count == |open|
      && num_buffered_values < 8 && (repeat_count >= 8 ==> num_buffered_values == 0 && open == [])
      && input == Content()
    }

    /** The counters follow the input, and so does whether a run is too long to be read. */
    ghost predicate Counting()
      reads this
    {
      && (if input == [] then repeat_count == 0 else current_value == input[|input| - 1])
      && CountsAfter(input) == Counts(repeat_count, num_buffered_values)
      && (LongRun(input) <==> !AllReadable(runs) || repeat_count > MAX_REPEAT)
    }

    ghost predicate Valid()
      reads this, bit_writer, bit_writer.buffer
    {
      Sound() && Counting() && Following()
    }

    constructor (buffer: array<bool>, base: nat, buffer_len: nat, bit_width: nat)
      requires bit_width <= 64 && base + 8 * buffer_len <= buffer.Length
      requires buffer_len >= MinBufferSize(bit_width)
      ensures Valid() && fresh(bit_writer) && input == [] && runs == []
      ensures bit_writer.buffer == buffer && bit_writer.base == base && bit_writer.max_bytes == buffer_len
      ensures this.bit_width == bit_width && !buffer_full
    {
      hide Tracks;
      TracksNothing();
      this.bit_width := bit_width;
      bit_writer := new BitWriter(buffer, base, buffer_len);
      max_run_byte_size := MinBufferSize(bit_width);
      buffer_full := false;
      buffered_values := seq(8, _ => 0);
      num_buffered_values := 0;
      current_value := 0;
      repeat_count := 0;
      literal_count := 0;
      literal_indicator_byte := None;
      runs, open, input := [], [], [];
    }

    /** After a run has been written: does another one fit? */
    method CheckBufferFull()
      requires Output() && open == []
      modifies `buffer_full
      ensures buffer_full == (old(buffer_full) || !RoomForRun())
    {
      hide Serialize, Expand, Pack, Pow2, MinBufferSize, Span, AllValid, AllBelow;
      var bytes_written := bit_writer.BytesWritten();
      if bytes_written + max_run_byte_size > bit_writer.max_bytes {
        buffer_full := true;
      }
    }

    /** Write the current repeat as a run. */
    method FlushRepeatedRun()
      requires Output() && open == []
      requires 1 <= repeat_count <= RepeatLimit(bit_width) && current_value < Pow2(bit_width)
      requires |Closed()| + |Vlq(IndicatorArgument(repeat_count))| + ValueBits(bit_width) <= 8 * bit_writer.max_bytes
      modifies this, bit_writer, bit_writer.buffer
      ensures Output() && open == [] && bit_writer.buffer[..bit_writer.base] == old(bit_writer.buffer[..bit_writer.base])
      ensures runs == old(runs) + [Repeated(old(repeat_count), current_value)]
      ensures num_buffered_values == 0 && repeat_count == 0
      ensures buffer_full == (old(buffer_full) || !RoomForRun())
      ensures current_value == old(current_value) && literal_count == old(literal_count)
      ensures buffered_values == old(buffered_values) && input == old(input)
    {
      hide Serialize, Expand, Pack, Vlq, Nat, ToBits, Pow2, MinBufferSize, Span, AllBelow, IndicatorArgument;
      WriteRepeat();
      num_buffered_values := 0;
      ghost var run := Repeated(repeat_count, current_value);
      repeat_count := 0;
      runs := runs + [run];
      SerializeOne(old(runs), run, bit_width);
      CheckBufferFull();
    }

    /** The indicator and the value of a repeated run. */
    method WriteRepeat()
      requires bit_writer.Valid() && bit_writer.Clean() && bit_writer.Padding() == []
      requires 1 <= repeat_count <= INT32_MAX && bit_width <= 64 && current_value < Pow2(bit_width)
      requires |bit_writer.stream| + |Vlq(IndicatorArgument(repeat_count))| + ValueBits(bit_width) <= 8 * bit_writer.max_bytes
      modifies bit_writer, bit_writer.buffer
      ensures bit_writer.Valid() && bit_writer.Clean() && bit_writer.Padding() == []
      ensures bit_writer.buffer[..bit_writer.base] == old(bit_writer.buffer[..bit_writer.base])
      ensures bit_writer.stream == old(bit_writer.stream) + Repeated(repeat_count, current_value).Code(bit_width)
    {
      hide Vlq, Nat, ToBits, Pow2, Fits, IndicatorArgument, BitWriter.Clean, BitWriter.Valid;
      IndicatorWord(repeat_count);
      ValueWord(current_value, bit_width);
      ghost var before := bit_writer.stream;
      var ok := bit_writer.PutVlqInt(ToBits(IndicatorArgument(repeat_count), 64));
      ghost var header := Vlq(IndicatorArgument(repeat_count));
      assert bit_writer.stream == before + header && bit_writer.Padding() == [];
      var ok' := bit_writer.PutAligned(ToBits(current_value, 64), CeilDiv8(bit_width));
      assert ok && ok';
      Associate(before, header, ToBits(current_value, ValueBits(bit_width)));
    }

    /** Reserve the indicator byte of a literal run, unless that has been done. */
    method ReserveIndicator()
      requires Output()
      requires |Closed()| + 8 <= 8 * bit_writer.max_bytes
      modifies `literal_indicator_byte, bit_writer, bit_writer.buffer
      ensures bit_writer.Valid() && bit_writer.Clean() && bit_writer.Padding() == []
      ensures bit_writer.buffer[..bit_writer.base] == old(bit_writer.buffer[..bit_writer.base])
      ensures InLiteralRun(open)
    {
      hide Serialize, Expand, Pow2, MinBufferSize, AllValid, AllBelow;
      if literal_indicator_byte == None {
        ghost var closed := bit_writer.stream;
        literal_indicator_byte := bit_writer.GetNextBytePtr(1);
        assert bit_writer.stream[..|closed|] == closed;
        assert Pack(open, bit_width) == [];
      }
    }

    /** Bit-pack the buffered values after the literals that are there. */
    method PutLiterals()
      requires bit_writer.Valid() && bit_writer.Clean() && InLiteralRun(open)
      requires bit_width <= 64 && num_buffered_values <= |buffered_values|
      requires AllBelow(buffered_values[..num_buffered_values], Pow2(bit_width))
      requires |Closed()| + 8 + Span(|open| + num_buffered_values, bit_width) <= 8 * bit_writer.max_bytes
      modifies bit_writer, bit_writer.buffer
      ensures bit_writer.Valid() && bit_writer.Clean()
      ensures bit_writer.buffer[..bit_writer.base] == old(bit_writer.buffer[..bit_writer.base])
      ensures InLiteralRun(open + buffered_values[..num_buffered_values])
    {
      hide Serialize, Pack, Span, Pow2, ToBits, Nat, AllBelow;
      ghost var values := buffered_values[..num_buffered_values];
      assert open + values[..0] == open;
      for i := 0 to num_buffered_values
        invariant bit_writer.Valid() && bit_writer.Clean()
        invariant bit_writer.buffer[..bit_writer.base] == old(bit_writer.buffer[..bit_writer.base])
        invariant InLiteralRun(open + values[..i])
      {
        PutLiteral(values[..i], buffered_values[i], values);
        assert values[..i + 1] == values[..i] + [buffered_values[i]];
      }
      assert values[..num_buffered_values] == values;
    }

    method PutLiteral(ghost done: seq<nat>, v: nat, ghost all: seq<nat>)
      requires bit_writer.Valid() && bit_writer.Clean() && InLiteralRun(open + done) && bit_width <= 64
      requires v in all && |done| < |all| && AllBelow(all, Pow2(bit_width))
      requires |Closed()| + 8 + Span(|open| + |all|, bit_width) <= 8 * bit_writer.max_bytes
      modifies bit_writer, bit_writer.buffer
      ensures bit_writer.Valid() && bit_writer.Clean()
      ensures bit_writer.buffer[..bit_writer.base] == old(bit_writer.buffer[..bit_writer.base])
      ensures InLiteralRun(open + (done + [v]))
    {
      hide Serialize, Pack, Pow2, ToBits, Nat, BitWriter.Clean, BitWriter.Valid;
      ghost var n, packed := |open| + |done|, Pack(open + done, bit_width);
      SpanMonotonic(n + 1, |open| + |all|, bit_width);
      assert Span(n + 1, bit_width) == Span(n, bit_width) + bit_width;
      ValueWord(v, bit_width);
      PackOne(open + done, v, bit_width);
      Associate(open, done, [v]);
      ghost var closed, stream := Closed(), bit_writer.stream;
      var success;
      ghost var bits;
      success, bits := bit_writer.PutValue(ToBits(v, 64), bit_width);
      assert success;
      assert (stream + bits)[..|closed|] == stream[..|closed|];
      assert (stream + bits)[|closed| + 8..] == stream[|closed| + 8..] + bits;
    }

    /** The literals `vs` are in the buffer and make a valid run. */
    ghost predicate Extended(vs: seq<nat>)
      reads this, bit_writer, bit_writer.buffer
    {
      && 0 < bit_width <= 64 && max_run_byte_size == MinBufferSize(bit_width)
      && bit_writer.Valid() && bit_writer.Clean() && InLiteralRun(vs)
      && AllValid(runs, bit_width) && Literal(vs).Valid(bit_width)
    }

    /** Fill in the indicator: the literal run becomes a closed run. */
    method CloseLiteralRun(ghost vs: seq<nat>)
      requires Extended(vs) && literal_count == |vs|
      modifies `literal_indicator_byte, `runs, `open, `literal_count, bit_writer`stream, bit_writer.buffer
      ensures Output() && open == [] && literal_count == 0
      ensures bit_writer.buffer[..bit_writer.base] == old(bit_writer.buffer[..bit_writer.base])
      ensures runs == old(runs) + [Literal(vs)]
    {
      hide Serialize, Pack, Span, Pow2, ToBits, Nat, BitWriter.Clean, BitWriter.Valid;
      var num_groups := literal_count / 8;
      SerializeOne(runs, Literal(vs), bit_width);
      StoreIndicator(num_groups, vs);
      literal_indicator_byte := None;
      literal_count := 0;
      open := [];
      runs := runs + [Literal(vs)];
      SerializeBytes(runs, bit_width);
      NoPadding(bit_writer);
    }

    /** The literal run stays open. */
    ghost method KeepLiteralRun(vs: seq<nat>)
      requires Extended(vs) && |vs| < 8 * MAX_GROUPS
      modifies `open
      ensures Output() && open == vs
    {
      hide Serialize, Pack, Span, Pow2, ToBits, Nat, AllBelow;
      open := vs;
      LiteralRunBytes(bit_writer, Closed(), vs, bit_width);
      SerializeBytes(runs, bit_width);
    }

    method StoreIndicator(num_groups: nat, ghost vs: seq<nat>)
      requires bit_writer.Valid() && bit_writer.Clean() && InLiteralRun(vs)
      modifies bit_writer`stream, bit_writer.buffer
      ensures bit_writer.Valid() && bit_writer.Clean()
      ensures bit_writer.buffer[..bit_writer.base] == old(bit_writer.buffer[..bit_writer.base])
      ensures bit_writer.stream == Closed() + (LiteralHeader(num_groups) + Pack(vs, bit_width))
    {
      hide Serialize, Pack, Span, ToBits;
      Associate(Closed(), LiteralHeader(num_groups), Pack(vs, bit_width));
      bit_writer.Store(literal_indicator_byte.value, LiteralHeader(num_groups));
    }

    /** Reserve the indicator if need be and bit-pack the buffered values. */
    method WriteLiterals()
      requires Output() && RoomForRun() && bit_width > 0
      requires |buffered_values| == 8 && num_buffered_values <= 8
      requires Literal(open + buffered_values[..num_buffered_values]).Valid(bit_width)
      modifies `literal_indicator_byte, bit_writer, bit_writer.buffer
      ensures Extended(open + buffered_values[..num_buffered_values])
      ensures bit_writer.buffer[..bit_writer.base] == old(bit_writer.buffer[..bit_writer.base])
    {
      hide Serialize, Pack, Span, Pow2, AllBelow, MinBufferSize;
      LiteralRoom(|open| + num_buffered_values, bit_width);
      LiteralParts(open, buffered_values[..num_buffered_values], Pow2(bit_width));
      ReserveIndicator();
      PutLiterals();
    }

    /** Move the buffered values into the literal run, and close it if asked to. */
    method FlushLiteralRun(update_indicator_byte: bool)
      requires Output() && RoomForRun() && bit_width > 0
      requires |buffered_values| == 8 && num_buffered_values <= 8
      requires literal_count == |open| + num_buffered_values
      requires Literal(open + buffered_values[..num_buffered_values]).Valid(bit_width)
      requires !update_indicator_byte ==> literal_count < 8 * MAX_GROUPS
      modifies this, bit_writer, bit_writer.buffer
      ensures Output() && num_buffered_values == 0
      ensures bit_writer.buffer[..bit_writer.base] == old(bit_writer.buffer[..bit_writer.base])
      ensures current_value == old(current_value) && repeat_count == old(repeat_count)
      ensures buffered_values == old(buffered_values) && input == old(input)
      ensures literal_count == |open|
      ensures var vs := old(open + buffered_values[..num_buffered_values]);
        if update_indicator_byte
        then runs == old(runs) + [Literal(vs)] && open == [] && buffer_full == (old(buffer_full) || !RoomForRun())
        else runs == old(runs) && open == vs && buffer_full == old(buffer_full)
    {
      hide Serialize, Pack, Span, Pow2, AllBelow, MinBufferSize, BitWriter.Clean, BitWriter.Valid;
      ghost var vs := open + buffered_values[..num_buffered_values];
      WriteLiterals();
      num_buffered_values := 0;
      if update_indicator_byte {
        CloseLiteralRun(vs);
        CheckBufferFull();
      } else {
        KeepLiteralRun(vs);
      }
    }

    /** A full group: it joins the repeated run, or the literal run. */
    method FlushBufferedValues(done: bool)
      requires Output() && Buffering() && Fullness() && AllLong(runs) && !buffer_full
      requires num_buffered_values == 8 && repeat_count <= 8 && literal_count == |open| && Following()
      modifies this, bit_writer, bit_writer.buffer
      ensures Output() && Buffering() && Fullness() && AllLong(runs) && (!done ==> Following())
      ensures num_buffered_values == 0 && literal_count == |open|
      ensures repeat_count >= 8 ==> open == []
      ensures bit_writer.buffer[..bit_writer.base] == old(bit_writer.buffer[..bit_writer.base])
      ensures Content() == old(Content()) && input == old(input)
      ensures current_value == old(current_value) && repeat_count == if old(repeat_count) == 8 then 8 else 0
      ensures AllReadable(runs) == AllReadable(old(runs))
    {
      hide Serialize, Expand, Pack, Span, Pow2, MinBufferSize, AllValid, Repeat, AllReadable, Tracks;
      if repeat_count >= 8 {
        num_buffered_values := 0;
        if literal_count != 0 {
          EndLiteralRun();
        }
        return;
      }
      EndLiteralGroup(done);
    }

    /** A repeated run starts after an open literal run. */
    method EndLiteralRun()
      requires Output() && Buffering() && AllLong(runs) && RoomForRun() && !buffer_full
      requires num_buffered_values == 0 && repeat_count == 8 && literal_count == |open| > 0 && Following()
      modifies this, bit_writer, bit_writer.buffer
      ensures Output() && Buffering() && Fullness() && AllLong(runs) && Following()
      ensures num_buffered_values == 0 && repeat_count == 8 && literal_count == |open| == 0
      ensures bit_writer.buffer[..bit_writer.base] == old(bit_writer.buffer[..bit_writer.base])
      ensures Content() == old(Content()) && input == old(input)
      ensures current_value == old(current_value) && AllReadable(runs) == AllReadable(old(runs))
    {
      hide Serialize, Expand, Pack, Span, Pow2, MinBufferSize, AllValid, Repeat, AllReadable, Tracks;
      ReadableOne(runs, Literal(open));
      TracksEndOfLiterals(input, runs, open, current_value);
      ghost var vs := open;
      assert open + buffered_values[..num_buffered_values] == vs;
      RoomAfterLiteral(|vs|, bit_width);
      SerializeOne(runs, Literal(vs), bit_width);
      FlushLiteralRun(true);
      ContentClosed(Expand(old(runs)), vs, Waiting());
    }

    /** A full group that is not a repeat is not of one kind. */
    lemma {:induction false} GroupTracked()
      requires Buffering() && num_buffered_values == 8 && repeat_count < 8 && Following()
      ensures var group := buffered_values[..8];
        if |open| + 8 == 504 then Tracks(input, runs + [Literal(open + group)], [], []) else Tracks(input, runs, open + group, [])
    {
      hide Tracks, Pow2;
      var group := buffered_values[..8];
      TracksGroup(input, runs, open, group, if group[7 - repeat_count] != group[0] then 7 - repeat_count else 7);
    }

    /** The group joins the literal run, which is closed when its indicator can count no more. */
    method EndLiteralGroup(done: bool)
      requires Output() && Buffering() && Fullness() && AllLong(runs) && !buffer_full
      requires num_buffered_values == 8 && repeat_count < 8 && literal_count == |open| && Following()
      modifies this, bit_writer, bit_writer.buffer
      ensures Output() && Buffering() && Fullness() && AllLong(runs) && (!done ==> Following())
      ensures num_buffered_values == repeat_count == 0 && literal_count == |open|
      ensures bit_writer.buffer[..bit_writer.base] == old(bit_writer.buffer[..bit_writer.base])
      ensures Content() == old(Content()) && input == old(input)
      ensures current_value == old(current_value) && AllReadable(runs) == AllReadable(old(runs))
    {
      hide Serialize, Expand, Pack, Span, Pow2, MinBufferSize, AllValid, Repeat, AllReadable, BitWriter.Clean, BitWriter.Valid,
        Tracks, RleEncoder.Output, RleEncoder.Buffering, RleEncoder.Fullness;
      BufferedIsEight();
      ghost var expanded, vs, group := Expand(runs), open, buffered_values[..8];
      GroupTracked();
      ReadableOne(runs, Literal(vs + group));
      SerializeOne(runs, Literal(vs + group), bit_width);
      JoinLiterals(done, vs, group);
      ContentGrouped(expanded, vs, group);
    }

    lemma {:induction false} BufferedIsEight()
      requires Buffering() && Output()
      ensures |buffered_values| == 8 && |open| < 8 * MAX_GROUPS
    {
      hide BitWriter.Clean, BitWriter.Valid;
    }

    method JoinLiterals(done: bool, ghost vs: seq<nat>, ghost group: seq<nat>)
      requires Output() && Buffering() && Fullness() && AllLong(runs) && !buffer_full
      requires num_buffered_values == 8 && repeat_count < 8 && literal_count == |open|
      requires vs == open && group == buffered_values[..8]
      modifies this, bit_writer, bit_writer.buffer
      ensures Output() && Buffering() && Fullness() && AllLong(runs)
      ensures num_buffered_values == repeat_count == 0 && literal_count == |open| && |buffered_values| == 8
      ensures bit_writer.buffer[..bit_writer.base] == old(bit_writer.buffer[..bit_writer.base])
      ensures input == old(input) && current_value == old(current_value)
      ensures if |vs| + 8 == 504 || done then runs == old(runs) + [Literal(vs + group)] && open == []
        else runs == old(runs) && open == vs + group
    {
      hide Serialize, Expand, Pack, Span, Pow2, MinBufferSize, AllValid, Repeat, AllReadable, BitWriter.Clean, BitWriter.Valid,
        Tracks;
      literal_count := literal_count + num_buffered_values;
      var num_groups := literal_count / 8;
      LiteralWhole(vs, group, bit_width);
      FlushLiteralRun(num_groups + 1 >= 64 || done);
      repeat_count := 0;
      SerializeOne(old(runs), Literal(vs + group), bit_width);
    }

    /** Values this encoder can take next without overflowing its repeat counter. */
    predicate CanPut(value: nat): (can: bool)
      reads this
      ensures can <==> value != current_value || repeat_count < 0x3FFF_FFFF || (bit_width > 0 && repeat_count < 0x7FFF_FFFF)
    {
      value == current_value ==> repeat_count < RepeatLimit(bit_width)
    }

    /** Take one more value, unless the buffer is full. */
    method Put(value: nat) returns (ok: bool)
      requires Valid() && value < Pow2(bit_width) && CanPut(value)
      modifies this, bit_writer, bit_writer.buffer
      ensures Valid() && ok == !old(buffer_full)
      ensures bit_writer.buffer[..bit_writer.base] == old(bit_writer.buffer[..bit_writer.base])
      ensures !ok ==> unchanged(this) && unchanged(bit_writer) && PureRepeat()
      ensures ok ==> input == old(input) + [value]
    {
      hide RleEncoder.Sound, RleEncoder.Following, Tracks, Pow2, CountsAfter, LongRun, AllReadable, BitWriter.Valid, BitWriter.Clean;
      if buffer_full {
        WhenFull();
        return false;
      }
      CountsOneMore(input, value);
      Take(value);
      ok := true;
    }

    lemma {:induction false} WhenFull()
      requires Sound() && buffer_full
      ensures PureRepeat()
    {
    }

    /** The value joins the current repeat or starts a new one, and a full group is flushed. */
    method Take(value: nat)
      requires Sound() && Following() && !buffer_full && value < Pow2(bit_width) && CanPut(value)
      modifies this, bit_writer, bit_writer.buffer
      ensures Sound() && Following() && input == old(input) + [value]
      ensures bit_writer.buffer[..bit_writer.base] == old(bit_writer.buffer[..bit_writer.base])
      ensures current_value == value
      ensures Counts(repeat_count, num_buffered_values)
        == CountOne(if value == old(current_value) then old(repeat_count) + 1 else 1, old(num_buffered_values))
      ensures AllReadable(runs) <==>
        AllReadable(old(runs)) && (value != old(current_value) ==> old(repeat_count) <= MAX_REPEAT)
    {
      hide Serialize, Expand, Pack, Span, Pow2, MinBufferSize, AllValid, Repeat, AllReadable, BitWriter.Clean, BitWriter.Valid,
        Tracks;
      if current_value == value {
        TracksOneMore(input, runs, open, Waiting(), value);
        repeat_count := repeat_count + 1;
        if repeat_count > 8 {
          RepeatOneMore(value, repeat_count - 1);
          input := input + [value];
          return;
        }
      } else {
        StartRepeat(value);
      }
      Buffer(value);
      if num_buffered_values == 8 {
        FlushBufferedValues(false);
      }
    }

    /** `value` differs from the last one: a repeated run that was long enough is written out. */
    method StartRepeat(value: nat)
      requires Sound() && Following() && !buffer_full && value < Pow2(bit_width) && value != current_value
      modifies this, bit_writer, bit_writer.buffer
      ensures num_buffered_values <= |buffered_values|
      ensures Tracks(input + [value], runs, open, buffered_values[..num_buffered_values] + [value])
      ensures num_buffered_values > 0 ==> buffered_values[num_buffered_values - 1] != value
      ensures Output() && AllLong(runs) && literal_count == |open|
      ensures |buffered_values| == 8 && num_buffered_values < 8 && bit_width > 0
      ensures repeat_count == 1 && current_value == value
      ensures AllBelow(buffered_values[..num_buffered_values], Pow2(bit_width))
      ensures buffer_full == !RoomForRun()
      ensures buffer_full ==> open == [] && num_buffered_values == 0
      ensures buffer_full ==> |Closed()| + 8 + ValueBits(bit_width) <= 8 * bit_writer.max_bytes
      ensures bit_writer.buffer[..bit_writer.base] == old(bit_writer.buffer[..bit_writer.base])
      ensures input == old(input) == Expand(runs) + open + buffered_values[..num_buffered_values]
      ensures num_buffered_values == old(num_buffered_values)
      ensures AllReadable(runs) <==> AllReadable(old(runs)) && old(repeat_count) <= MAX_REPEAT
    {
      hide Serialize, Expand, Pack, Span, Pow2, MinBufferSize, AllValid, Repeat, AllReadable, Tracks;
      ZeroWidth(bit_width, value, current_value);
      if repeat_count >= 8 {
        EndRepeat(value);
        NothingOpen(Expand(runs), []);
        assert [] + [value] == [value];
      } else {
        TracksOneMore(input, runs, open, Waiting(), value);
      }
      repeat_count := 1;
      current_value := value;
    }

    /** A repeated run has ended: `value` is another one. */
    method EndRepeat(value: nat)
      requires Sound() && Following() && !buffer_full && repeat_count >= 8
      requires value < Pow2(bit_width) && bit_width > 0 && value != current_value
      modifies this, bit_writer, bit_writer.buffer
      ensures Tracks(input + [value], runs, [], [value])
      ensures Output() && AllLong(runs) && open == [] && literal_count == 0
      ensures |buffered_values| == 8 && num_buffered_values == repeat_count == 0
      ensures buffer_full == !RoomForRun()
      ensures |Closed()| + 8 + ValueBits(bit_width) <= 8 * bit_writer.max_bytes
      ensures bit_writer.buffer[..bit_writer.base] == old(bit_writer.buffer[..bit_writer.base])
      ensures input == old(input) == Expand(runs)
      ensures AllReadable(runs) <==> AllReadable(old(runs)) && old(repeat_count) <= MAX_REPEAT
    {
      hide Serialize, Expand, Pack, Span, MinBufferSize, AllValid, Repeat, AllReadable, Vlq, IndicatorArgument, Tracks;
      TracksRepeat(input, runs, current_value, repeat_count, value);
      ReadableOne(runs, Repeated(repeat_count, current_value));
      SerializeOne(runs, Repeated(repeat_count, current_value), bit_width);
      RoomAfterRepeat(repeat_count, bit_width);
      NothingOpen(Expand(runs), Repeat(current_value, repeat_count));
      FlushRepeatedRun();
    }

    /** Append to the group being buffered. */
    method Buffer(value: nat)
      requires Output() && AllLong(runs) && literal_count == |open|
      requires |buffered_values| == 8 && num_buffered_values < 8
      requires value == current_value && value < Pow2(bit_width)
      requires 1 <= repeat_count <= 8 && repeat_count <= num_buffered_values + 1
      requires AllBelow(buffered_values[..num_buffered_values], Pow2(bit_width))
      requires forall i :: num_buffered_values + 1 - repeat_count <= i < num_buffered_values ==>
        buffered_values[i] == current_value
      requires bit_width == 0 ==> repeat_count == num_buffered_values + 1
      requires repeat_count <= num_buffered_values ==> buffered_values[num_buffered_values - repeat_count] != current_value
      requires input == Expand(runs) + open + buffered_values[..num_buffered_values]
      requires Tracks(input + [value], runs, open, buffered_values[..num_buffered_values] + [value])
      modifies `buffered_values, `num_buffered_values, `input
      ensures Output() && Buffering() && literal_count == |open| && Following()
      ensures num_buffered_values == old(num_buffered_values) + 1
      ensures input == old(input) + [value] == Content()
    {
      hide Serialize, Expand, Pack, Span, Pow2, MinBufferSize, AllValid, Tracks;
      ghost var before := buffered_values[..num_buffered_values];
      buffered_values := buffered_values[num_buffered_values := value];
      num_buffered_values := num_buffered_values + 1;
      input := input + [value];
      ghost var after := buffered_values[..num_buffered_values];
      assert after == before + [value];
      if repeat_count == 8 {
        assert after == Repeat(value, 8);
      }
      Associate(Expand(runs) + open, before, [value]);
    }

    /** Write out whatever is pending; the number of bytes written in all. */
    method Flush() returns (n: nat)
      requires Valid()
      modifies this, bit_writer, bit_writer.buffer
      ensures bit_writer.Valid() && 8 * n == |bit_writer.stream| <= 8 * bit_writer.max_bytes
      ensures bit_writer.buffer[..bit_writer.base] == old(bit_writer.buffer[..bit_writer.base])
      ensures bit_writer.buffer[bit_writer.base..bit_writer.base + 8 * n] == Closed()
      ensures AllValid(runs, bit_width) && input == old(input) && runs == Hybrid(input, [])
      ensures exists padding :: Expand(runs) == input + Repeat(0, padding) && padding < 8
      ensures old(PureRepeat()) ==> Expand(runs) == input
      ensures |Closed()| <= Budget(CeilDiv8(|input|), bit_width)
      ensures AllReadable(runs) <==> !LongRun(input)
      ensures input <= Decode(Closed(), bit_width) <==> !LongRun(input)
      ensures num_buffered_values == literal_count == repeat_count == 0
    {
      hide Serialize, Expand, Pack, Span, Pow2, MinBufferSize, AllValid, AllBelow, Repeat, Budget, AllReadable,
        LongRun, Decode, BitWriter.Clean, BitWriter.Valid, Tracks, Hybrid;
      ghost var padding := FinishRun();
      ReadBackIffReadable(runs, bit_width, input, padding);
      bit_writer.Flush(false);
      n := bit_writer.BytesWritten();
    }

    /** Figure out whether what is pending is a repeated or a literal run, and write it. */
    method FinishRun() returns (ghost padding: nat)
      requires Valid()
      modifies this, bit_writer, bit_writer.buffer
      ensures Finished(padding) && input == old(input) && runs == Hybrid(input, [])
      ensures old(PureRepeat()) ==> padding == 0
      ensures AllReadable(runs) <==> !LongRun(input)
      ensures bit_writer.buffer[..bit_writer.base] == old(bit_writer.buffer[..bit_writer.base])
    {
      hide Serialize, Expand, Pack, Span, Pow2, MinBufferSize, AllValid, Repeat, Budget, AllReadable, LongRun, CountsAfter,
        Tracks, Hybrid;
      padding := 0;
      if literal_count > 0 || repeat_count > 0 || num_buffered_values > 0 {
        var all_repeat := literal_count == 0 && (repeat_count == num_buffered_values || num_buffered_values == 0);
        if repeat_count > 0 && all_repeat {
          FinishRepeat();
        } else {
          padding := FinishLiterals();
        }
      } else {
        FinishNothing();
        TracksToEnd(input, runs);
      }
    }

    /** All that `Flush` has to establish before storing the last bytes. */
    ghost predicate Finished(padding: nat)
      reads this, bit_writer, bit_writer.buffer
    {
      && Output() && open == [] && literal_count == num_buffered_values == repeat_count == 0
      && Expand(runs) == input + Repeat(0, padding) && padding < 8
      && |Closed()| <= Budget(CeilDiv8(|input|), bit_width)
    }

    lemma {:induction false} FinishNothing()
      requires Sound() && literal_count == repeat_count == num_buffered_values == 0
      ensures Finished(0)
    {
      hide Serialize, Expand, Pack, Span, Pow2, MinBufferSize, AllValid, Budget;
      SerializeCost(runs, bit_width);
      BudgetMonotonic(|Expand(runs)| / 8, CeilDiv8(|Expand(runs)|), bit_width);
      assert input == Expand(runs) == Expand(runs) + Repeat(0, 0);
    }

    method FinishRepeat()
      requires Valid() && open == [] && repeat_count > 0
      requires num_buffered_values == 0 || repeat_count == num_buffered_values
      modifies this, bit_writer, bit_writer.buffer
      ensures Finished(0) && input == old(input) && runs == Hybrid(input, [])
      ensures AllReadable(runs) <==> !LongRun(input)
      ensures bit_writer.buffer[..bit_writer.base] == old(bit_writer.buffer[..bit_writer.base])
    {
      hide Serialize, Expand, Pack, Span, Pow2, MinBufferSize, AllValid, Budget, Vlq, AllReadable, LongRun,
        CountsAfter, IndicatorArgument, Tracks, Hybrid;
      ghost var run := Repeated(repeat_count, current_value);
      ReadableOne(runs, run);
      assert Waiting() == run.Values();
      TracksLastRepeat(input, runs, current_value, repeat_count);
      NothingOpen(Expand(runs), run.Values());
      SerializeOne(runs, run, bit_width);
      RoomAfterRepeat(repeat_count, bit_width);
      RepeatHeaderSize(repeat_count);
      RepeatBudget(repeat_count, current_value, bit_width);
      FinalSize(runs, run, repeat_count, bit_width);
      FlushRepeatedRun();
      assert input == Expand(runs) == Expand(runs) + Repeat(0, 0);
    }

    lemma {:induction false} ReadableSoFar()
      requires Counting()
      ensures repeat_count <= MAX_REPEAT ==> (AllReadable(runs) <==> !LongRun(input))
    {
    }

    /** What is left is not of one kind, or behind literals: the last group of a literal run. */
    lemma {:induction false} LastLiterals()
      requires Valid() && !(open == [] && (repeat_count == num_buffered_values || num_buffered_values == 0))
      ensures var waiting := buffered_values[..num_buffered_values];
        Hybrid(input, []) == runs + [Literal(open + (waiting + Repeat(0, if waiting == [] then 0 else 8 - |waiting|)))]
    {
      hide Serialize, Expand, Pack, Span, Pow2, MinBufferSize, AllValid, Tracks, Hybrid, RleEncoder.Counting, RleEncoder.Output;
      var waiting, n := buffered_values[..num_buffered_values], num_buffered_values;
      if n > 0 && repeat_count < n {
        TracksLastLiterals(input, runs, open, waiting, if waiting[n - 1 - repeat_count] != waiting[0] then n - 1 - repeat_count else n - 1);
      } else {
        TracksLastLiterals(input, runs, open, waiting, 0);
      }
      PaddingOf(waiting);
    }

    method FinishLiterals() returns (ghost padding: nat)
      requires Valid() && !(open == [] && (repeat_count == num_buffered_values || num_buffered_values == 0))
      modifies this, bit_writer, bit_writer.buffer
      ensures Finished(padding) && input == old(input) && runs == Hybrid(input, [])
      ensures AllReadable(runs) <==> !LongRun(input)
      ensures bit_writer.buffer[..bit_writer.base] == old(bit_writer.buffer[..bit_writer.base])
    {
      hide Serialize, Expand, Pack, Span, Pow2, MinBufferSize, AllValid, Budget, Repeat, Run.Code, Run.Valid,
        AllBelow, AllReadable,
        LongRun, RleEncoder.Counting, BitWriter.Clean, BitWriter.Valid, Tracks, Hybrid;
      ReadableSoFar();
      LastLiterals();
      ghost var waiting, count, expanded := buffered_values[..num_buffered_values], num_buffered_values, Expand(runs);
      PadGroup();
      padding := num_buffered_values - count;
      ghost var vs := open + buffered_values[..num_buffered_values];
      PaddedLiteral(open, waiting, padding, bit_width);
      Associate(open, waiting, Repeat(0, padding));
      literal_count := literal_count + num_buffered_values;
      SerializeOne(runs, Literal(vs), bit_width);
      ReadableOne(runs, Literal(vs));
      FinalSize(runs, Literal(vs), |open + waiting|, bit_width);
      PaddedContent(expanded, open, waiting, Repeat(0, padding));
      FlushLiteralRun(true);
      repeat_count := 0;
    }

    /** Pad the last group with zeros. */
    method PadGroup()
      requires Valid()
      modifies `buffered_values, `num_buffered_values
      ensures |buffered_values| == 8 && num_buffered_values == if old(num_buffered_values) == 0 then 0 else 8
      ensures buffered_values[..num_buffered_values] ==
        old(buffered_values[..num_buffered_values]) + Repeat(0, num_buffered_values - old(num_buffered_values))
    {
      hide RleEncoder.Output, RleEncoder.Fullness, RleEncoder.Counting, RleEncoder.Content, AllLong, Tracks, Pow2, AllBelow;
      while num_buffered_values != 0 && num_buffered_values < 8
        invariant |buffered_values| == 8 && old(num_buffered_values) <= num_buffered_values <= 8
        invariant old(num_buffered_values) == 0 ==> num_buffered_values == 0
        invariant buffered_values[..num_buffered_values] ==
          old(buffered_values[..num_buffered_values]) + Repeat(0, num_buffered_values - old(num_buffered_values))
        decreases 8 - num_buffered_values
      {
        buffered_values := buffered_values[num_buffered_values := 0];
        num_buffered_values := num_buffered_values + 1;
        assert buffered_values[..num_buffered_values] == buffered_values[..num_buffered_values - 1] + [0];
      }
    }
  }

  /** Padding makes a valid literal run of as many groups as the values need. */
  lemma {:induction false} PaddedLiteral(vs: seq<nat>, waiting: seq<nat>, padding: nat, w: nat)
    requires |vs| % 8 == 0 && |vs| < 8 * MAX_GROUPS && |waiting| < 8 && vs + waiting != []
    requires padding == if waiting == [] then 0 else 8 - |waiting|
    requires AllBelow(vs, Pow2(w)) && AllBelow(waiting, Pow2(w))
    ensures var run := Literal(vs + (waiting + Repeat(0, padding)));
      run.Valid(w) && |run.Code(w)| <= Budget(CeilDiv8(|vs + waiting|), w)
  {
    hide Budget, Pow2, Pack, ToBits;
    LiteralCost(CeilDiv8(|vs + waiting|), w);
  }

  lemma {:induction false} PaddedContent(expanded: seq<nat>, vs: seq<nat>, waiting: seq<nat>, zeros: seq<nat>)
    ensures expanded + (vs + (waiting + zeros)) == (expanded + vs + waiting) + zeros
  {
  }

  lemma {:induction false} RepeatBudget(count: nat, value: nat, w: nat)
    requires Repeated(count, value).Valid(w)
    ensures |Repeated(count, value).Code(w)| <= Budget(CeilDiv8(count), w)
  {
    hide Vlq, Pow2, ToBits, Budget;
    if count >= 8 {
      RunCost(Repeated(count, value), w);
      BudgetMonotonic(count / 8, CeilDiv8(count), w);
    } else {
      RepeatHeaderSize(count);
      BudgetParts(1, w);
      SpanIsProduct(1, w);
    }
  }

  /** The last run of a stream: `n` more values than the earlier runs carry. */
  lemma {:induction false} FinalSize(runs: seq<Run>, last: Run, n: nat, w: nat)
    requires AllValid(runs, w) && AllLong(runs)
    requires |last.Code(w)| <= Budget(CeilDiv8(n), w)
    ensures |Serialize(runs + [last], w)| <= Budget(CeilDiv8(|Expand(runs)| + n), w)
  {
    hide Serialize, Expand, Budget, AllValid, AllLong, Run.Code, Run.Values;
    SerializeCost(runs, w);
    SerializeOne(runs, last, w);
    var a, b := |Expand(runs)| / 8, CeilDiv8(n);
    BudgetAdd(a, b, w);
    BudgetMonotonic(a + b, CeilDiv8(|Expand(runs)| + n), w);
  }

  lemma {:induction false} ReadableOne(runs: seq<Run>, run: Run)
    ensures AllReadable(runs + [run]) <==> AllReadable(runs) && run.Readable()
  {
    assert forall i :: 0 <= i < |runs| ==> (runs + [run])[i] == runs[i];
    assert (runs + [run])[|runs|] == run;
  }

  lemma {:induction false} CountsOneMore(s: seq<nat>, v: nat)
    ensures CountsAfter(s + [v])
      == CountOne(if s != [] && s[|s| - 1] == v then CountsAfter(s).repeat + 1 else 1, CountsAfter(s).buffered)
    ensures LongRun(s + [v]) <==> LongRun(s) || CountsAfter(s + [v]).repeat > MAX_REPEAT
  {
    assert (s + [v])[..|s|] == s;
  }

  lemma {:induction false} RepeatOneMore(value: nat, n: nat)
    ensures Repeat(value, n + 1) == Repeat(value, n) + [value]
  {
  }

  lemma {:induction false} NothingOpen(expanded: seq<nat>, waiting: seq<nat>)
    ensures expanded + [] + waiting == expanded + waiting
  {
  }

  /** Two different values need at least one bit. */
  lemma {:induction false} ZeroWidth(w: nat, a: nat, b: nat)
    requires a < Pow2(w) && b < Pow2(w) && a != b
    ensures w > 0
  {
  }

  lemma {:induction false} LiteralWhole(vs: seq<nat>, group: seq<nat>, w: nat)
    requires AllBelow(vs, Pow2(w)) && AllBelow(group, Pow2(w))
    requires |group| == 8 && |vs| % 8 == 0 && |vs| < 8 * MAX_GROUPS
    ensures Literal(vs + group).Valid(w)
  {
  }

  lemma {:induction false} ContentClosed(expanded: seq<nat>, vs: seq<nat>, waiting: seq<nat>)
    ensures (expanded + vs) + [] + waiting == expanded + vs + waiting
  {
  }

  lemma {:induction false} ContentGrouped(expanded: seq<nat>, vs: seq<nat>, group: seq<nat>)
    ensures expanded + (vs + group) + [] == expanded + vs + group
    ensures (expanded + (vs + group)) + [] + [] == expanded + vs + group
  {
  }

  /** A literal run of up to 62 groups leaves room for a short repeated run. */
  lemma {:induction false} RoomAfterLiteral(n: nat, w: nat)
    requires n < 8 * MAX_GROUPS && n % 8 == 0 && w > 0
    ensures 8 + Span(n, w) + 8 + ValueBits(w) <= 8 * MinBufferSize(w)
  {
    MinBufferSizeFacts(w);
    SpanMonotonic(n, 496, w);
    SpanIsProduct(496, w);
  }

  /** So does a repeated run. */
  lemma {:induction false} RoomAfterRepeat(count: nat, w: nat)
    requires 1 <= count <= RepeatLimit(w)
    ensures |Vlq(IndicatorArgument(count))| + ValueBits(w) <= 8 * MinBufferSize(w)
    ensures w > 0 ==> |Vlq(IndicatorArgument(count))| + ValueBits(w) + 8 + ValueBits(w) <= 8 * MinBufferSize(w)
  {
    hide Vlq, IndicatorArgument, MinBufferSize;
    MinBufferSizeFacts(w);
    RepeatHeaderSize(count);
  }

  lemma {:induction false} LiteralRoom(n: nat, w: nat)
    requires n <= 8 * MAX_GROUPS
    ensures 8 + Span(n, w) <= 8 * MinBufferSize(w)
  {
    MinBufferSizeFacts(w);
    SpanMonotonic(n, 512, w);
    SpanIsProduct(512, w);
  }

  lemma {:induction false} LiteralParts(a: seq<nat>, b: seq<nat>, bound: nat)
    requires AllBelow(a + b, bound)
    ensures AllBelow(a, bound) && AllBelow(b, bound)
  {
    assert forall i :: 0 <= i < |a| ==> a[i] == (a + b)[i];
    assert forall i :: 0 <= i < |b| ==> b[i] == (a + b)[|a| + i];
  }

  lemma {:induction false} LiteralRunBytes(w: BitWriter, closed: BitString, vs: seq<nat>, width: nat)
    requires w.Valid() && |w.stream| == |closed| + 8 + Span(|vs|, width)
    requires |vs| % 8 == 0
    ensures |closed| % 8 == 0 ==> w.Padding() == []
  {
    hide Span, BitWriter.Valid;
    SpanOfGroups(|vs| / 8, width);
    if |closed| % 8 == 0 {
      NoPadding(w);
    }
  }

  lemma {:induction false} NoPadding(w: BitWriter)
    requires w.Valid() && |w.stream| % 8 == 0
    ensures w.Padding() == []
  {
  }

  lemma {:induction false} IndicatorWord(count: nat)
    requires count <= INT32_MAX
    ensures Nat(ToBits(IndicatorArgument(count), 64)) == IndicatorArgument(count)
  {
    Pow2Values();
    NatOfToBits(IndicatorArgument(count), 64);
  }

  lemma {:induction false} ValueWord(v: nat, w: nat)
    requires w <= 64 && v < Pow2(w)
    ensures ToBits(v, 64)[..ValueBits(w)] == ToBits(v, ValueBits(w))
    ensures ToBits(v, 64)[..w] == ToBits(v, w)
    ensures Fits(ToBits(v, 64), w)
  {
    ToBitsPrefix(v, ValueBits(w), 64);
    ToBitsPrefix(v, w, 64);
    ToBitsFits(v, 64, w);
  }
}
