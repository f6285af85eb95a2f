/**
What is put on a column and what is read from it, wherever pages are flushed and whatever batches
are read: the same levels, and the same values exactly as long as the encoder keeps them.
 */
module ChunkRoundTrips {
  import opened Formats
  import opened Options
  import opened Bits
  import opened Records
  import opened RecordReading
  import opened Rle
  import opened RleEncoding
  import opened PlainCoding
  import opened Dictionaries
  import opened ValueCoding
  import opened ColumnChunks
  import opened ColumnReading

  datatype Step = PutStep(def: nat, rep: nat, val: Atom) | FlushStep

  predicate Allowed(l: Layout, steps: seq<Step>) {
    forall i :: 0 <= i < |steps| && steps[i].PutStep? ==>
      && steps[i].def <= l.def_level && steps[i].rep <= l.rep_level
      && (steps[i].def == l.def_level ==> Storable(l.kind, steps[i].val))
  }

  /** The triplets of the puts, in order. */
  function Put(l: Layout, steps: seq<Step>): seq<Triplet> {
    if steps == [] then []
    else
      var front, s := Put(l, steps[..|steps| - 1]), steps[|steps| - 1];
      if s.FlushStep? then front
      else front + [Triplet(s.def, s.rep, if s.def == l.def_level then Some(s.val) else None)]
  }

  // ----- What becomes of the values -----

  /** The state of the encoder of values after the steps. */
  function StateAfter(c: Coder, l: Layout, steps: seq<Step>): Coder {
    if steps == [] then c
    else
      var front, s := StateAfter(c, l, steps[..|steps| - 1]), steps[|steps| - 1];
      if s.FlushStep? then front.Flush() else if s.def == l.def_level then front.Put(s.val) else front
  }

  /** The triplets that a reader gets: the levels as they were put, and for the values what the
      encoder makes of them. */
  function Reading(c: Coder, l: Layout, steps: seq<Step>): seq<Triplet> {
    if steps == [] then []
    else
      var before, s := steps[..|steps| - 1], steps[|steps| - 1];
      var front := Reading(c, l, before);
      if s.FlushStep? then front
      else front + [Triplet(s.def, s.rep, if s.def == l.def_level then Some(StateAfter(c, l, before).Read(s.val)) else None)]
  }

  /** The encoder keeps every value that is put. */
  predicate Faithful(c: Coder, l: Layout, steps: seq<Step>) {
    forall i :: 0 <= i < |steps| && steps[i].PutStep? && steps[i].def == l.def_level ==>
      StateAfter(c, l, steps[..i]).Keeps(steps[i].val)
  }

  /** A reader gets what was put if and only if every value is kept. */
  lemma {:induction false} ReadBackIffFaithful(c: Coder, l: Layout, steps: seq<Step>)
    requires c.Kept()
    ensures Reading(c, l, steps) == Put(l, steps) <==> Faithful(c, l, steps)
    ensures |Reading(c, l, steps)| == |Put(l, steps)|
    ensures Faithful(c, l, steps) ==> StateAfter(c, l, steps).Kept()
  {
    hide Coder.Keeps, Coder.Kept, Coder.Read, Coder.Put, Coder.Flush;
    if steps != [] {
      var front, s := steps[..|steps| - 1], steps[|steps| - 1];
      ReadBackIffFaithful(c, l, front);
      FaithfulBefore(c, l, front, s);
      FrontAndLast(steps);
      if Faithful(c, l, front) {
        StateAfter(c, l, front).FlushKeeps();
        if s.PutStep? {
          StateAfter(c, l, front).ReadIffKeeps(s.val);
        }
      }
      if s.PutStep? {
        var x, y := Reading(c, l, steps), Put(l, steps);
        var n := |x| - 1;
        assert x[..n] == Reading(c, l, front) && y[..n] == Put(l, front);
        FrontAndLast(x);
        FrontAndLast(y);
      }
    }
  }

  lemma {:induction false} FaithfulBefore(c: Coder, l: Layout, steps: seq<Step>, s: Step)
    ensures Faithful(c, l, steps + [s]) <==>
      Faithful(c, l, steps) && (s.PutStep? && s.def == l.def_level ==> StateAfter(c, l, steps).Keeps(s.val))
  {
    hide Coder.Keeps, StateAfter;
    var all := steps + [s];
    forall i | 0 <= i < |steps| ensures all[..i] == steps[..i] && all[i] == steps[i] {
    }
    assert all[..|steps|] == steps && all[|steps|] == s;
  }

  /** The same in any state of an encoder that has fallen back if the values are floating-point. */
  lemma {:induction false} ExactInAnyState(c: Coder, l: Layout, steps: seq<Step>)
    requires c.kind == l.kind && !l.kind.Boolean? && (Floating(l.kind) ==> c.fallen_back)
    ensures Faithful(c, l, steps)
  {
    forall i | 0 <= i < |steps| && steps[i].PutStep? && steps[i].def == l.def_level
      ensures StateAfter(c, l, steps[..i]).Keeps(steps[i].val)
    {
      StateKind(c, l, steps[..i]);
      if !Floating(l.kind) {
        NoZeros(l.kind, steps[i].val);
      }
    }
  }

  /** So it is in all row groups. */
  lemma {:induction false} ExactInAllGroups(l: Layout, encoding: Encoding, groups: seq<seq<Step>>)
    requires !l.kind.Boolean? && (Floating(l.kind) ==> encoding == PLAIN)
    ensures AllFaithful(NewCoder(l.kind, encoding), l, groups)
  {
    hide Faithful, StateAfter, StateAfterGroups;
    var c := NewCoder(l.kind, encoding);
    forall g | 0 <= g < |groups| ensures Faithful(StateAfterGroups(c, l, groups[..g]), l, groups[g]) {
      StateAfterHistory(c, l, groups[..g]);
      StateKind(c, l, History(groups[..g]));
      ExactInAnyState(StateAfterGroups(c, l, groups[..g]), l, groups[g]);
    }
  }

  /** Integers and byte arrays are always kept, and floating-point values in plain pages. */
  lemma {:induction false} ExactIsFaithful(l: Layout, encoding: Encoding, steps: seq<Step>)
    requires !l.kind.Boolean? && (Floating(l.kind) ==> encoding == PLAIN)
    ensures Faithful(NewCoder(l.kind, encoding), l, steps)
  {
    ExactInAnyState(NewCoder(l.kind, encoding), l, steps);
  }

  lemma {:induction false} StateKind(c: Coder, l: Layout, steps: seq<Step>)
    ensures StateAfter(c, l, steps).kind == c.kind && (c.fallen_back ==> StateAfter(c, l, steps).fallen_back)
  {
    hide NextKeys, PlainCodes;
    if steps != [] {
      StateKind(c, l, steps[..|steps| - 1]);
    }
  }

  /** Whatever the page boundaries, a dictionary column of a negative after a positive zero, or of a
      true after a false value, is not read back; nor are two true values in a plain page. */
  lemma {:induction false} UnfaithfulColumns(codec: Codec)
    ensures !Faithful(NewCoder(Float, RLE_DICTIONARY), Layout(0, 0, Float, codec),
      [PutStep(0, 0, Zeros(32)), PutStep(0, 0, Zeros(31) + [true])])
    ensures !Faithful(NewCoder(Boolean, RLE_DICTIONARY), Layout(0, 0, Boolean, codec), [PutStep(0, 0, FALSE), PutStep(0, 0, TRUE)])
    ensures !Faithful(NewCoder(Boolean, PLAIN), Layout(0, 0, Boolean, codec), [PutStep(0, 0, TRUE), PutStep(0, 0, TRUE)])
  {
    var plus, minus := Zeros(32), Zeros(31) + [true];
    var keys := NewCoder(Float, RLE_DICTIONARY).Put(plus).keys;
    assert keys == [plus] && keys[0] == plus && IsZero(Float, plus) && IsZero(Float, minus) && minus[31] != plus[31];
    assert FALSE[0] != TRUE[0] && NewCoder(Boolean, RLE_DICTIONARY).Put(FALSE).keys == [FALSE];
    SecondIsLost(NewCoder(Float, RLE_DICTIONARY), Layout(0, 0, Float, codec), plus, minus);
    SecondIsLost(NewCoder(Boolean, RLE_DICTIONARY), Layout(0, 0, Boolean, codec), FALSE, TRUE);
    SecondIsLost(NewCoder(Boolean, PLAIN), Layout(0, 0, Boolean, codec), TRUE, TRUE);
  }

  /** Two values at the maximum definition level. */
  function TwoPuts(l: Layout, a: Atom, b: Atom): seq<Step> {
    [PutStep(l.def_level, 0, a), PutStep(l.def_level, 0, b)]
  }

  lemma {:induction false} SecondIsLost(c: Coder, l: Layout, a: Atom, b: Atom)
    requires !c.Put(a).Keeps(b)
    ensures !Faithful(c, l, TwoPuts(l, a, b))
  {
    hide Coder.Keeps, Coder.Put;
    var steps, first := TwoPuts(l, a, b), PutStep(l.def_level, 0, a);
    assert steps[..1] == [first] && [first][..0] == [];
    assert StateAfter(c, l, steps[..1]) == c.Put(a) && steps[1].val == b;
  }

  /** Whatever is put on a column comes back if and only if its values are neither booleans nor
      floating-point numbers in a dictionary. */
  lemma {:induction false} AlwaysKeptIff(l: Layout, encoding: Encoding)
    requires Codable(encoding)
    ensures (forall steps :: Allowed(l, steps) ==> Faithful(NewCoder(l.kind, encoding), l, steps))
      <==> !l.kind.Boolean? && (Floating(l.kind) ==> encoding == PLAIN)
  {
    hide Faithful;
    var c := NewCoder(l.kind, encoding);
    if !l.kind.Boolean? && (Floating(l.kind) ==> encoding == PLAIN) {
      forall steps | Allowed(l, steps) ensures Faithful(c, l, steps) {
        ExactIsFaithful(l, encoding, steps);
      }
    } else {
      var a, b := LostPair(l.kind, encoding);
      SecondIsLost(c, l, a, b);
      assert Allowed(l, TwoPuts(l, a, b));
    }
  }

  /** Two values of such a kind, the second of which is lost. */
  lemma {:induction false} LostPair(kind: Kind, encoding: Encoding) returns (a: Atom, b: Atom)
    requires Codable(encoding) && (kind.Boolean? || (Floating(kind) && encoding == RLE_DICTIONARY))
    ensures Storable(kind, a) && Storable(kind, b) && !NewCoder(kind, encoding).Put(a).Keeps(b)
  {
    if kind.Boolean? {
      a, b := if encoding == PLAIN then TRUE else FALSE, TRUE;
      assert FALSE[0] != TRUE[0];
      assert encoding == RLE_DICTIONARY ==> NewCoder(kind, encoding).Put(a).keys == [FALSE];
    } else {
      var n := 8 * kind.Bytes();
      a, b := Zeros(n), Zeros(n - 1) + [true];
      assert NewCoder(kind, encoding).Put(a).keys == [a] && [a][0] == a;
      assert IsZero(kind, a) && IsZero(kind, b) && b[n - 1] != a[n - 1];
    }
  }

  // ----- When an encoder falls back to plain -----

  /** The values put, in order. */
  function ValuesPut(l: Layout, steps: seq<Step>): seq<Atom> {
    if steps == [] then []
    else
      var front, s := ValuesPut(l, steps[..|steps| - 1]), steps[|steps| - 1];
      if s.PutStep? && s.def == l.def_level then front + [s.val] else front
  }

  /** At some flush the plain codes of the distinct values put until then took more than 16 KiB. */
  predicate Crossed(l: Layout, steps: seq<Step>) {
    exists k :: 0 <= k < |steps| && steps[k].FlushStep?
      && |PlainCodes(l.kind, FirstOccurrences(l.kind, [], ValuesPut(l, steps[..k])))| > 8 * 16384
  }

  /** The encoding of the next page, by what has been put before. */
  function PromisedEncoding(l: Layout, encoding: Encoding, steps: seq<Step>): Encoding {
    if encoding == PLAIN || Crossed(l, steps) then PLAIN else RLE_DICTIONARY
  }

  /** The encodings of the pages that `steps` fill, with `before` what has been put before. */
  function PromisedEncodings(l: Layout, encoding: Encoding, before: seq<Step>, steps: seq<Step>): seq<Encoding> {
    if steps == [] then []
    else
      var front := steps[..|steps| - 1];
      PromisedEncodings(l, encoding, before, front)
      + (if steps[|steps| - 1].FlushStep? then [PromisedEncoding(l, encoding, before + front)] else [])
  }

  /** Those of a chunk: what is left in the end makes a page more. */
  function ChunkEncodings(l: Layout, encoding: Encoding, before: seq<Step>, steps: seq<Step>): seq<Encoding> {
    PromisedEncodings(l, encoding, before, steps)
    + (if SinceFlush(steps) == 0 then [] else [PromisedEncoding(l, encoding, before + steps)])
  }

  lemma {:induction false} CrossedOneMore(l: Layout, steps: seq<Step>, s: Step)
    ensures Crossed(l, steps + [s]) <==>
      Crossed(l, steps)
      || (s.FlushStep? && |PlainCodes(l.kind, FirstOccurrences(l.kind, [], ValuesPut(l, steps)))| > 8 * 16384)
  {
    hide ValuesPut, PlainCodes, FirstOccurrences;
    var all := steps + [s];
    forall k | 0 <= k <= |steps| ensures all[..k] == steps[..k] && (k < |steps| ==> all[k] == steps[k]) {
    }
    assert steps[..|steps|] == steps && all[|steps|] == s;
  }

  /** The encoder has fallen back exactly if that has happened; until then its keys are the distinct
      values put. */
  lemma {:induction false} FallsBackIff(l: Layout, encoding: Encoding, steps: seq<Step>)
    requires Codable(encoding)
    ensures var c := StateAfter(NewCoder(l.kind, encoding), l, steps);
      && EncodingIn(c) == PromisedEncoding(l, encoding, steps)
      && (!c.fallen_back ==> c.keys == FirstOccurrences(l.kind, [], ValuesPut(l, steps))) && c.kind == l.kind
  {
    hide PlainCodes, NextKeys, Place, FirstOccurrences, Crossed;
    if steps == [] {
      NothingCrossed(l);
    } else {
      var front, s := steps[..|steps| - 1], steps[|steps| - 1];
      FallsBackIff(l, encoding, front);
      FrontAndLast(steps);
      CrossedOneMore(l, front, s);
      FirstOccurrencesOneMore(l.kind, ValuesPut(l, front), if s.PutStep? then s.val else []);
    }
  }

  lemma {:induction false} NothingCrossed(l: Layout)
    ensures !Crossed(l, []) && FirstOccurrences(l.kind, [], []) == []
  {
  }

  lemma {:induction false} FirstOccurrencesOneMore(kind: Kind, data: seq<Atom>, v: Atom)
    ensures FirstOccurrences(kind, [], data + [v]) == NextKeys(kind, FirstOccurrences(kind, [], data), v)
  {
    assert (data + [v])[..|data|] == data;
  }

  /** All that has been put on a column before a row group; the end of a chunk ends its page. */
  function History(groups: seq<seq<Step>>): seq<Step> {
    if groups == [] then [] else History(groups[..|groups| - 1]) + groups[|groups| - 1] + [FlushStep]
  }

  lemma {:induction false} StateAfterBoth(c: Coder, l: Layout, a: seq<Step>, b: seq<Step>)
    ensures StateAfter(c, l, a + b) == StateAfter(StateAfter(c, l, a), l, b)
    decreases |b|
  {
    hide Coder.Put, Coder.Flush;
    if b == [] {
      assert a + b == a;
    } else {
      assert (a + b)[..|a + b| - 1] == a + b[..|b| - 1];
      StateAfterBoth(c, l, a, b[..|b| - 1]);
    }
  }

  lemma {:induction false} StateAfterHistory(c: Coder, l: Layout, groups: seq<seq<Step>>)
    ensures StateAfterGroups(c, l, groups) == StateAfter(c, l, History(groups))
  {
    hide Coder.Put, Coder.Flush;
    if groups != [] {
      var front, last := groups[..|groups| - 1], groups[|groups| - 1];
      StateAfterHistory(c, l, front);
      StateAfterBoth(c, l, History(front), last);
      StateAfterBoth(c, l, History(front) + last, [FlushStep]);
      assert [FlushStep][..0] == [];
    }
  }

  /** The encodings of the pages that the steps fill, by the state of the encoder. */
  function EncodingsAfter(c: Coder, l: Layout, steps: seq<Step>): seq<Encoding> {
    if steps == [] then []
    else
      var front := steps[..|steps| - 1];
      EncodingsAfter(c, l, front) + (if steps[|steps| - 1].FlushStep? then [EncodingIn(StateAfter(c, l, front))] else [])
  }

  lemma {:induction false} EncodingsArePromised(l: Layout, encoding: Encoding, before: seq<Step>, steps: seq<Step>)
    requires Codable(encoding)
    ensures EncodingsAfter(StateAfter(NewCoder(l.kind, encoding), l, before), l, steps)
      == PromisedEncodings(l, encoding, before, steps)
  {
    hide StateAfter, PromisedEncoding, EncodingIn;
    if steps != [] {
      var front := steps[..|steps| - 1];
      EncodingsArePromised(l, encoding, before, front);
      StateAfterBoth(NewCoder(l.kind, encoding), l, before, front);
      FallsBackIff(l, encoding, before + front);
    }
  }

  /** The encodings of a chunk, by the state of the encoder before it. */
  function EncodingsOfChunk(c: Coder, l: Layout, steps: seq<Step>): seq<Encoding> {
    EncodingsAfter(c, l, steps) + (if SinceFlush(steps) == 0 then [] else [EncodingIn(StateAfter(c, l, steps))])
  }

  /** In each chunk of a column there is a dictionary page exactly in a dictionary column, and data
      pages have the encodings that the values put so far call for. */
  predicate EncodedChunks(l: Layout, encoding: Encoding, groups: seq<seq<Step>>, chunks: seq<seq<StoredPage>>) {
    && |chunks| == |groups|
    && forall g :: 0 <= g < |chunks| ==>
      && InFrontOnly(chunks[g], encoding == RLE_DICTIONARY)
      && DataEncodings(chunks[g]) == ChunkEncodings(l, encoding, History(groups[..g]), groups[g])
  }

  lemma {:induction false} ChunksArePromised(l: Layout, encoding: Encoding, groups: seq<seq<Step>>, steps: seq<Step>)
    requires Codable(encoding)
    ensures EncodingsOfChunk(StateAfterGroups(NewCoder(l.kind, encoding), l, groups), l, steps)
      == ChunkEncodings(l, encoding, History(groups), steps)
  {
    hide StateAfter, EncodingIn, PromisedEncoding, EncodingsAfter, PromisedEncodings, SinceFlush;
    StateAfterHistory(NewCoder(l.kind, encoding), l, groups);
    EncodingsArePromised(l, encoding, History(groups), steps);
    StateAfterBoth(NewCoder(l.kind, encoding), l, History(groups), steps);
    FallsBackIff(l, encoding, History(groups) + steps);
  }

  // ----- Pages -----

  /** The page in the making after the steps, as a reader will get it. */
  function PageAfter(c: Coder, l: Layout, steps: seq<Step>): Page {
    if steps == [] then EMPTY_PAGE
    else
      var before, s := steps[..|steps| - 1], steps[|steps| - 1];
      if s.FlushStep? then EMPTY_PAGE
      else PutOn(PageAfter(c, l, before), l, s.def, s.rep, StateAfter(c, l, before).Read(s.val))
  }

  /** The header of every page can count its triplets, and no level and no index comes 2^30 times in
      a row in a page. */
  predicate PagesFit(c: Coder, l: Layout, steps: seq<Step>) {
    forall i :: 0 <= i <= |steps| ==> Countable(l, PageAfter(c, l, steps[..i]), StateAfter(c, l, steps[..i]).indices)
  }

  /** The puts since the last flush. */
  function SinceFlush(steps: seq<Step>): nat {
    if steps == [] || steps[|steps| - 1].FlushStep? then 0 else 1 + SinceFlush(steps[..|steps| - 1])
  }

  /** No page gets 2^30 - 1 triplets. */
  predicate ShortPages(steps: seq<Step>) {
    forall i :: 0 <= i <= |steps| ==> SinceFlush(steps[..i]) < MAX_REPEAT
  }

  /** Then pages fit whatever is put. */
  lemma {:induction false} ShortPagesFit(c: Coder, l: Layout, steps: seq<Step>)
    requires ShortPages(steps) && c.indices == []
    ensures PagesFit(c, l, steps)
  {
    hide StateAfter, PageAfter, SinceFlush, RunsFit;
    forall i | 0 <= i <= |steps|
      ensures Countable(l, PageAfter(c, l, steps[..i]), StateAfter(c, l, steps[..i]).indices)
    {
      PageSizes(c, l, steps[..i]);
      ShortRunsFit(PageAfter(c, l, steps[..i]).defs);
      ShortRunsFit(PageAfter(c, l, steps[..i]).reps);
      ShortRunsFit(StateAfter(c, l, steps[..i]).indices);
    }
  }

  lemma {:induction false} ShortRunsFit(s: seq<nat>)
    requires |s| <= MAX_REPEAT
    ensures RunsFit(s)
  {
  }

  lemma {:induction false} PageSizes(c: Coder, l: Layout, steps: seq<Step>)
    requires c.indices == []
    ensures var p := PageAfter(c, l, steps); |p.defs| == |p.reps| == SinceFlush(steps)
    ensures |StateAfter(c, l, steps).indices| <= SinceFlush(steps)
  {
    hide Coder.Read, Place, NextKeys, PlainCodes;
    if steps != [] {
      PageSizes(c, l, steps[..|steps| - 1]);
    }
  }

  lemma {:induction false} AllTripletsAppend(ps: seq<Page>, p: Page, def: nat, rep: nat)
    requires AllInRange(ps, def, rep) && InRange(p, def, rep)
    ensures AllInRange(ps + [p], def, rep)
    ensures AllTriplets(ps + [p], def, rep) == AllTriplets(ps, def, rep) + PageTriplets(p, def)
  {
    hide Triplets, CountMax;
    if ps == [] {
      assert ps + [p] == [p] && [p][1..] == [];
      assert AllTriplets([p], def, rep) == PageTriplets(p, def) + AllTriplets([], def, rep);
    } else {
      assert (ps + [p])[1..] == ps[1..] + [p] && (ps + [p])[0] == ps[0];
      AllTripletsAppend(ps[1..], p, def, rep);
      Associate(PageTriplets(ps[0], def), AllTriplets(ps[1..], def, rep), PageTriplets(p, def));
    }
  }

  /** What a reader gets for everything put since the last chunk: on earlier pages and on the current one. */
  ghost predicate HasPut(w: ColumnChunkWriter, ts: seq<Triplet>)
    reads w
  {
    var l := w.layout;
    && AllInRange(w.written, l.def_level, l.rep_level) && InRange(w.current, l.def_level, l.rep_level)
    && ts == AllTriplets(w.written, l.def_level, l.rep_level) + PageTriplets(w.current, l.def_level)
  }

  lemma {:induction false} PutOne(w: Page, c: Coder, l: Layout, step: Step)
    requires InRange(w, l.def_level, l.rep_level) && Allowed(l, [step]) && step.PutStep?
    ensures var p := PutOn(w, l, step.def, step.rep, c.Read(step.val));
      && InRange(p, l.def_level, l.rep_level)
      && PageTriplets(p, l.def_level) == PageTriplets(w, l.def_level) + Reading(c, l, [step])
  {
    hide Triplets, CountMax, Coder.Read;
    assert [step][0] == step && [step][..0] == [];
    PutOnInRange(w, l, step.def, step.rep, c.Read(step.val));
  }

  // ----- How large pages can get -----

  /** The bits that triplets may take in a page; a value takes those of its plain code. */
  function Weight(kind: Kind, ts: seq<Triplet>): nat {
    if ts == [] then 0
    else 184 + (if ts[0].value.Some? then |Code(kind, ts[0].value.value)| else 0) + Weight(kind, ts[1..])
  }

  const PAGE_OVERHEAD := 17736

  lemma {:induction false} WeightAdd(kind: Kind, a: seq<Triplet>, b: seq<Triplet>)
    ensures Weight(kind, a + b) == Weight(kind, a) + Weight(kind, b)
  {
    hide Code;
    if a == [] {
      assert a + b == b;
    } else {
      assert (a + b)[1..] == a[1..] + b && (a + b)[0] == a[0];
      WeightAdd(kind, a[1..], b);
    }
  }

  lemma {:induction false} WeightOfPage(kind: Kind, defs: seq<nat>, reps: seq<nat>, values: seq<Atom>, max: nat)
    requires |defs| == |reps| && |values| == CountMax(defs, max)
    ensures Weight(kind, Triplets(defs, reps, values, max)) == 184 * |defs| + |PlainCodes(kind, values)|
  {
    hide Code, Triplets, CountMax;
    if defs == [] {
      TripletsNone(max);
    } else {
      TripletsHead(defs, reps, values, max);
      var c := if defs[0] == max then 1 else 0;
      WeightOfPage(kind, defs[1..], reps[1..], values[c..], max);
      var ts := Triplets(defs, reps, values, max);
      assert ts[1..] == Triplets(defs[1..], reps[1..], values[c..], max);
    }
  }

  /** Pages are no larger than all they hold together. */
  lemma {:induction false} RoomOfPages(kind: Kind, ps: seq<Page>, def: nat, rep: nat)
    requires AllInRange(ps, def, rep)
    ensures RoomWithin(kind, ps, PAGE_OVERHEAD + Weight(kind, AllTriplets(ps, def, rep)))
  {
    hide Triplets, CountMax, PlainCodes, Weight;
    if ps != [] {
      var p := ps[0];
      WeightAdd(kind, PageTriplets(p, def), AllTriplets(ps[1..], def, rep));
      WeightOfPage(kind, p.defs, p.reps, p.values, def);
      RoomOfPages(kind, ps[1..], def, rep);
    }
  }

  /** What is read weighs as much as what was put. */
  lemma {:induction false} WeightOfReading(c: Coder, l: Layout, steps: seq<Step>)
    requires Allowed(l, steps) && c.kind == l.kind
    ensures Weight(l.kind, Reading(c, l, steps)) == Weight(l.kind, Put(l, steps))
  {
    hide Code, Storable, Coder.Read, Weight;
    if steps != [] {
      var front, s := steps[..|steps| - 1], steps[|steps| - 1];
      WeightOfReading(c, l, front);
      if s.PutStep? {
        var x, y := Reading(c, l, steps), Put(l, steps);
        WeightAdd(l.kind, Reading(c, l, front), [x[|x| - 1]]);
        WeightAdd(l.kind, Put(l, front), [y[|y| - 1]]);
        StateKind(c, l, front);
        SameWeight(StateAfter(c, l, front), s.def, s.rep, s.val, s.def == l.def_level);
      }
    }
  }

  lemma {:induction false} SameWeight(c: Coder, def: nat, rep: nat, val: Atom, present: bool)
    requires present ==> Storable(c.kind, val)
    ensures Weight(c.kind, [Triplet(def, rep, if present then Some(c.Read(val)) else None)])
      == Weight(c.kind, [Triplet(def, rep, if present then Some(val) else None)])
  {
    hide Coder.Read, Storable;
    if present {
      c.ReadSize(val);
    }
  }

  // ----- Writing -----

  method WriteStep(w: ColumnChunkWriter, step: Step, ghost ts: seq<Triplet>)
    requires w.Valid() && Allowed(w.layout, [step]) && HasPut(w, ts)
    requires step.PutStep? ==>
      var c := w.val_encoder.State();
      Countable(w.layout, PutOn(w.current, w.layout, step.def, step.rep, c.Read(step.val)), StateAfter(c, w.layout, [step]).indices)
    modifies w.Repr()
    ensures w.Valid() && fresh(w.Repr() - old(w.Repr()))
    ensures HasPut(w, ts + Reading(old(w.val_encoder.State()), w.layout, [step]))
    ensures w.val_encoder.State() == StateAfter(old(w.val_encoder.State()), w.layout, [step])
    ensures DataEncodings(w.pages) ==
      DataEncodings(old(w.pages)) + if step.FlushStep? then [EncodingIn(old(w.val_encoder.State()))] else []
    ensures w.current == if step.FlushStep? then EMPTY_PAGE
      else PutOn(old(w.current), w.layout, step.def, step.rep, old(w.val_encoder.State()).Read(step.val))
    ensures w.val_encoder.DictBits() <= old(w.val_encoder.DictBits()) + Weight(w.layout.kind, Put(w.layout, [step]))
    ensures w.rows_written == old(w.rows_written) + Rows(Put(w.layout, [step]))
  {
    hide ColumnChunkWriter.Valid, Storable, Triplets, CountMax, AllTriplets, Code, Coder.Read, Coder.Put, Coder.Flush, DataEncodings,
      EncodingIn;
    var l := w.layout;
    ghost var current, written, c := w.current, w.written, w.val_encoder.State();
    assert [step][0] == step && [step][..0] == [];
    if step.PutStep? {
      w.Put(step.def, step.rep, step.val);
      OneRow(step.def, step.rep, if step.def == l.def_level then Some(step.val) else None);
      PutOne(current, c, l, step);
      Associate(AllTriplets(written, l.def_level, l.rep_level), PageTriplets(current, l.def_level), Reading(c, l, [step]));
    } else {
      w.FlushPage();
      AllTripletsAppend(written, current, l.def_level, l.rep_level);
      EmptyPage(EMPTY_PAGE, l.def_level);
      EmptyInRange(l);
    }
  }

  lemma {:induction false} OneMoreStep(c: Coder, l: Layout, steps: seq<Step>, i: nat)
    requires i < |steps|
    ensures Put(l, steps[..i + 1]) == Put(l, steps[..i]) + Put(l, [steps[i]])
    ensures Weight(l.kind, Put(l, steps[..i + 1])) == Weight(l.kind, Put(l, steps[..i])) + Weight(l.kind, Put(l, [steps[i]]))
    ensures Rows(Put(l, steps[..i + 1])) == Rows(Put(l, steps[..i])) + Rows(Put(l, [steps[i]]))
    ensures Reading(c, l, steps[..i + 1]) == Reading(c, l, steps[..i]) + Reading(StateAfter(c, l, steps[..i]), l, [steps[i]])
    ensures StateAfter(c, l, steps[..i + 1]) == StateAfter(StateAfter(c, l, steps[..i]), l, [steps[i]])
    ensures EncodingsAfter(c, l, steps[..i + 1])
      == EncodingsAfter(c, l, steps[..i]) + if steps[i].FlushStep? then [EncodingIn(StateAfter(c, l, steps[..i]))] else []
    ensures PageAfter(c, l, steps[..i + 1]) ==
      if steps[i].FlushStep? then EMPTY_PAGE
      else PutOn(PageAfter(c, l, steps[..i]), l, steps[i].def, steps[i].rep, StateAfter(c, l, steps[..i]).Read(steps[i].val))
  {
    hide Coder.Read, Coder.Put, Coder.Flush, PutOn, EncodingIn;
    assert steps[..i + 1][..i] == steps[..i] && [steps[i]][..0] == [];
    assert Put(l, steps[..i + 1]) == Put(l, steps[..i]) + Put(l, [steps[i]]);
    WeightAdd(l.kind, Put(l, steps[..i]), Put(l, [steps[i]]));
    RowsBoth(Put(l, steps[..i]), Put(l, [steps[i]]));
  }

  /** Write a chunk: any puts, with pages flushed anywhere among them, whatever earlier chunks have
      left in the dictionary. */
  method WriteGroup(w: ColumnChunkWriter, steps: seq<Step>) returns (chunk: seq<StoredPage>)
    requires Between(w) && Allowed(w.layout, steps) && PagesFit(w.val_encoder.State(), w.layout, steps)
    modifies w.Repr()
    ensures Between(w) && fresh(w.Repr() - old(w.Repr()))
    ensures w.val_encoder.State() == StateAfter(old(w.val_encoder.State()), w.layout, steps).Flush()
    ensures w.val_encoder.DictBits() <= old(w.val_encoder.DictBits()) + Weight(w.layout.kind, Put(w.layout, steps))
    ensures AllSmall(chunk) ==> Stores(w.layout, chunk, Reading(old(w.val_encoder.State()), w.layout, steps))
    ensures PagesWithin(chunk, PAGE_OVERHEAD + old(w.val_encoder.DictBits()) + Weight(w.layout.kind, Put(w.layout, steps)))
    ensures AllFormed(chunk, w.layout) && InFrontOnly(chunk, w.val_encoder.dictionary)
    ensures DataEncodings(chunk) == EncodingsOfChunk(old(w.val_encoder.State()), w.layout, steps)
    ensures w.rows_written == old(w.rows_written) + Rows(Put(w.layout, steps))
  {
    hide ColumnChunkWriter.Valid, DataEncodings, EncodingsAfter, EncodingIn, InFrontOnly, Put, Rows, StateAfter, Reading, PageAfter, PutOn, Countable, Storable, Stores, AllSmall, Formed, Triplets,
      CountMax, AllTriplets,
      Layout.Valid, Weight, Coder.Flush;
    ghost var c := w.val_encoder.State();
    NothingPut(w, c, steps);
    for i := 0 to |steps|
      invariant w.Valid() && fresh(w.Repr() - old(w.Repr())) && HasPut(w, Reading(c, w.layout, steps[..i]))
      invariant DataEncodings(w.pages) == EncodingsAfter(c, w.layout, steps[..i])
      invariant w.rows_written == old(w.rows_written) + Rows(Put(w.layout, steps[..i]))
      invariant w.current == PageAfter(c, w.layout, steps[..i]) && w.val_encoder.State() == StateAfter(c, w.layout, steps[..i])
      invariant w.val_encoder.DictBits()
        <= old(w.val_encoder.DictBits()) + Weight(w.layout.kind, Put(w.layout, steps[..i]))
    {
      OneMoreStep(c, w.layout, steps, i);
      assert Countable(w.layout, PageAfter(c, w.layout, steps[..i + 1]), StateAfter(c, w.layout, steps[..i + 1]).indices);
      WriteStep(w, steps[i], Reading(c, w.layout, steps[..i]));
    }
    assert steps[..|steps|] == steps;
    OpenPage(c, w.layout, steps);
    KindOfState(w);
    WeightOfReading(c, w.layout, steps);
    chunk := Finish(w, Reading(c, w.layout, steps),
      PAGE_OVERHEAD + old(w.val_encoder.DictBits()) + Weight(w.layout.kind, Put(w.layout, steps)));
  }

  lemma {:induction false} OpenPage(c: Coder, l: Layout, steps: seq<Step>)
    ensures PageAfter(c, l, steps).defs == [] <==> SinceFlush(steps) == 0
  {
    hide Coder.Read, StateAfter;
    if steps != [] {
      OpenPage(c, l, steps[..|steps| - 1]);
    }
  }

  lemma {:induction false} KindOfState(w: ColumnChunkWriter)
    requires w.Valid()
    ensures w.val_encoder.State().kind == w.layout.kind
  {
    hide ColumnChunkWriter.Bounded, HoldEach, ValueEncoder.Valid;
  }

  /** A writer that has nothing on its hands. */
  ghost predicate Between(w: ColumnChunkWriter)
    reads w.Repr(), w.rep_encoder, w.def_encoder
  {
    w.Valid() && w.pages == [] && w.written == [] && w.current == EMPTY_PAGE && w.levels_in_current_page == 0
  }

  /** A reader gets these triplets from the pages of a chunk. */
  ghost predicate Stores(l: Layout, chunk: seq<StoredPage>, ts: seq<Triplet>) {
    exists held :: HoldsAll(chunk, l, None, held)
      && AllInRange(held, l.def_level, l.rep_level) && AllTriplets(held, l.def_level, l.rep_level) == ts
  }

  /** The state of the encoder after the chunks of several row groups. */
  function StateAfterGroups(c: Coder, l: Layout, groups: seq<seq<Step>>): Coder {
    if groups == [] then c else StateAfter(StateAfterGroups(c, l, groups[..|groups| - 1]), l, groups[|groups| - 1]).Flush()
  }

  /** What a reader gets from the first `n` row groups is what was put in them. */
  predicate ReadAsPut(c: Coder, l: Layout, groups: seq<seq<Step>>, n: nat)
    requires n <= |groups|
  {
    forall g :: 0 <= g < n ==> Reading(StateAfterGroups(c, l, groups[..g]), l, groups[g]) == Put(l, groups[g])
  }

  /** Every value of the first `n` row groups is kept. */
  predicate FaithfulTo(c: Coder, l: Layout, groups: seq<seq<Step>>, n: nat)
    requires n <= |groups|
  {
    forall g :: 0 <= g < n ==> Faithful(StateAfterGroups(c, l, groups[..g]), l, groups[g])
  }

  predicate AllFaithful(c: Coder, l: Layout, groups: seq<seq<Step>>) {
    FaithfulTo(c, l, groups, |groups|)
  }

  /** Row groups are read back if and only if every value is kept, each in the state that those
      before it have left. */
  lemma {:induction false} GroupsReadBackIff(c: Coder, l: Layout, groups: seq<seq<Step>>, n: nat)
    requires c.Kept() && n <= |groups|
    ensures ReadAsPut(c, l, groups, n) <==> FaithfulTo(c, l, groups, n)
    ensures FaithfulTo(c, l, groups, n) ==> StateAfterGroups(c, l, groups[..n]).Kept()
  {
    hide Coder.Kept, Faithful, Reading, Put, StateAfter, Coder.Flush;
    if n > 0 {
      GroupsReadBackIff(c, l, groups, n - 1);
      var before := StateAfterGroups(c, l, groups[..n - 1]);
      assert FaithfulTo(c, l, groups, n) ==> FaithfulTo(c, l, groups, n - 1);
      assert ReadAsPut(c, l, groups, n) ==> ReadAsPut(c, l, groups, n - 1);
      if FaithfulTo(c, l, groups, n - 1) {
        ReadBackIffFaithful(before, l, groups[n - 1]);
        if Faithful(before, l, groups[n - 1]) {
          StateAfter(before, l, groups[n - 1]).FlushKeeps();
        }
        assert groups[..n][..n - 1] == groups[..n - 1];
      }
    }
  }

  lemma {:induction false} NoGroups(c: Coder, l: Layout, groups: seq<seq<Step>>)
    ensures StateAfterGroups(c, l, groups[..0]) == c && groups[0..] == groups && History([]) == [] && RowsPut(l, groups[..0]) == 0
  {
  }

  lemma {:induction false} NextGroup(c: Coder, l: Layout, groups: seq<seq<Step>>, g: nat)
    requires g < |groups|
    ensures StateAfterGroups(c, l, groups[..g + 1]) == StateAfter(StateAfterGroups(c, l, groups[..g]), l, groups[g]).Flush()
    ensures TotalWeight(l, groups[g..]) == Weight(l.kind, Put(l, groups[g])) + TotalWeight(l, groups[g + 1..])
    ensures RowsPut(l, groups[..g + 1]) == RowsPut(l, groups[..g]) + Rows(Put(l, groups[g]))
  {
    hide Coder.Flush, StateAfter, Weight, Put;
    assert groups[g..][0] == groups[g] && groups[g..][1..] == groups[g + 1..];
    assert groups[..g + 1][..g] == groups[..g];
  }

  /** The rows put in some row groups. */
  function RowsPut(l: Layout, groups: seq<seq<Step>>): nat {
    if groups == [] then 0 else RowsPut(l, groups[..|groups| - 1]) + Rows(Put(l, groups[|groups| - 1]))
  }

  /** The rows that the writer of a column tells after each row group: those of all up to it. */
  ghost predicate RowsTold(l: Layout, groups: seq<seq<Step>>, rows: seq<nat>) {
    |rows| == |groups| && forall g :: 0 <= g < |groups| ==> rows[g] == RowsPut(l, groups[..g + 1])
  }

  /** The chunks of one column in successive row groups: each of them can be read by itself,
      although the dictionary goes on growing. Pages can get too large only if there is too much
      data. The rows told after each chunk are not only its own. */
  method WriteChunks(l: Layout, encoding: Encoding, groups: seq<seq<Step>>)
    returns (chunks: seq<seq<StoredPage>>, rows: seq<nat>)
    requires l.Valid() && Codable(encoding)
    requires forall g :: 0 <= g < |groups| ==>
      Allowed(l, groups[g]) && PagesFit(StateAfterGroups(NewCoder(l.kind, encoding), l, groups[..g]), l, groups[g])
    ensures |chunks| == |groups|
    ensures var c := NewCoder(l.kind, encoding);
      && (forall g :: 0 <= g < |groups| && AllSmall(chunks[g]) ==>
           Stores(l, chunks[g], Reading(StateAfterGroups(c, l, groups[..g]), l, groups[g])))
      && (AllFaithful(c, l, groups) ==>
           forall g :: 0 <= g < |groups| && AllSmall(chunks[g]) ==> Stores(l, chunks[g], Put(l, groups[g])))
    ensures forall g :: 0 <= g < |groups| ==> PagesWithin(chunks[g], MostBits(l, groups)) && AllFormed(chunks[g], l)
    ensures EncodedChunks(l, encoding, groups, chunks) && RowsTold(l, groups, rows)
  {
    hide Rows, RowsPut, ColumnChunkWriter.Valid, Allowed, PagesFit, Stores, AllSmall, Layout.Valid, Reading, StateAfterGroups,
      TotalWeight, AllFaithful, GroupChunk;
    NoGroups(NewCoder(l.kind, encoding), l, groups);
    var w := new ColumnChunkWriter(l, encoding);
    ghost var c := NewCoder(l.kind, encoding);
    chunks, rows := [], [];
    for g := 0 to |groups|
      invariant fresh(w.Repr()) && w.layout == l && |chunks| == |rows| == g && Before(w, l, encoding, groups, g)
      invariant forall i :: 0 <= i < g ==> rows[i] == RowsPut(l, groups[..i + 1])
      invariant forall i :: 0 <= i < g ==> GroupChunk(l, encoding, groups, i, chunks[i])
    {
      var chunk := WriteNext(w, l, encoding, groups, g);
      chunks, rows := chunks + [chunk], rows + [w.rows_written];
    }
    NewIsKept(l.kind, encoding);
    EachGroupChunk(l, encoding, groups, chunks);
    FaithfulChunks(c, l, groups, chunks);
  }

  /** The writer has handed out the chunks of `g` row groups. */
  ghost predicate Before(w: ColumnChunkWriter, l: Layout, encoding: Encoding, groups: seq<seq<Step>>, g: nat)
    requires g <= |groups|
    reads w, w.Repr(), w.rep_encoder, w.def_encoder
  {
    && Between(w) && w.rows_written == RowsPut(l, groups[..g])
    && w.val_encoder.State() == StateAfterGroups(NewCoder(l.kind, encoding), l, groups[..g])
    && w.val_encoder.DictBits() + TotalWeight(l, groups[g..]) <= TotalWeight(l, groups)
    && (w.val_encoder.dictionary <==> encoding == RLE_DICTIONARY)
  }

  /** What the chunk of a row group is like. */
  ghost predicate GroupChunk(l: Layout, encoding: Encoding, groups: seq<seq<Step>>, g: nat, chunk: seq<StoredPage>)
    requires g < |groups|
  {
    && (AllSmall(chunk) ==> Stores(l, chunk, Reading(StateAfterGroups(NewCoder(l.kind, encoding), l, groups[..g]), l, groups[g])))
    && PagesWithin(chunk, MostBits(l, groups)) && AllFormed(chunk, l)
    && InFrontOnly(chunk, encoding == RLE_DICTIONARY)
    && DataEncodings(chunk) == ChunkEncodings(l, encoding, History(groups[..g]), groups[g])
  }

  method WriteNext(w: ColumnChunkWriter, l: Layout, encoding: Encoding, groups: seq<seq<Step>>, g: nat)
    returns (chunk: seq<StoredPage>)
    requires Codable(encoding) && g < |groups| && w.layout == l && Before(w, l, encoding, groups, g)
    requires Allowed(l, groups[g]) && PagesFit(StateAfterGroups(NewCoder(l.kind, encoding), l, groups[..g]), l, groups[g])
    modifies w.Repr()
    ensures Before(w, l, encoding, groups, g + 1) && fresh(w.Repr() - old(w.Repr()))
    ensures GroupChunk(l, encoding, groups, g, chunk)
  {
    hide Rows, RowsPut, ColumnChunkWriter.Valid, Allowed, PagesFit, Stores, AllSmall, Layout.Valid, Put, Weight, Reading, StateAfter,
      Coder.Flush, AllFormed, PagesWithin,
      StateAfterGroups, TotalWeight, InFrontOnly, DataEncodings, ChunkEncodings, EncodingsOfChunk, History;
    NextGroup(NewCoder(l.kind, encoding), l, groups, g);
    ghost var bits := PAGE_OVERHEAD + w.val_encoder.DictBits() + Weight(l.kind, Put(l, groups[g]));
    ChunksArePromised(l, encoding, groups[..g], groups[g]);
    chunk := WriteGroup(w, groups[g]);
    WithinMore(chunk, bits, MostBits(l, groups));
  }

  lemma {:induction false} EachGroupChunk(l: Layout, encoding: Encoding, groups: seq<seq<Step>>, chunks: seq<seq<StoredPage>>)
    requires |chunks| == |groups| && forall g :: 0 <= g < |groups| ==> GroupChunk(l, encoding, groups, g, chunks[g])
    ensures EncodedChunks(l, encoding, groups, chunks)
    ensures forall g :: 0 <= g < |groups| ==>
      && PagesWithin(chunks[g], MostBits(l, groups)) && AllFormed(chunks[g], l)
      && (AllSmall(chunks[g]) ==>
        Stores(l, chunks[g], Reading(StateAfterGroups(NewCoder(l.kind, encoding), l, groups[..g]), l, groups[g])))
  {
    hide PagesWithin, AllFormed, Stores, AllSmall, Reading, StateAfterGroups, MostBits, InFrontOnly, DataEncodings, ChunkEncodings, History;
  }

  lemma {:induction false} FaithfulChunks(c: Coder, l: Layout, groups: seq<seq<Step>>, chunks: seq<seq<StoredPage>>)
    requires c.Kept() && |chunks| == |groups|
    requires forall g :: 0 <= g < |groups| && AllSmall(chunks[g]) ==>
      Stores(l, chunks[g], Reading(StateAfterGroups(c, l, groups[..g]), l, groups[g]))
    ensures AllFaithful(c, l, groups) ==> forall g :: 0 <= g < |groups| && AllSmall(chunks[g]) ==> Stores(l, chunks[g], Put(l, groups[g]))
  {
    hide Coder.Kept, Faithful, Reading, Put, StateAfter, StateAfterGroups, Stores, AllSmall;
    if AllFaithful(c, l, groups) {
      GroupsReadBackIff(c, l, groups, |groups|);
    }
  }

  lemma {:induction false} NewIsKept(kind: Kind, encoding: Encoding)
    ensures NewCoder(kind, encoding).Kept()
  {
  }

  function TotalWeight(l: Layout, groups: seq<seq<Step>>): nat {
    if groups == [] then 0 else Weight(l.kind, Put(l, groups[0])) + TotalWeight(l, groups[1..])
  }

  lemma {:induction false} OneGroupWeighs(l: Layout, steps: seq<Step>)
    ensures TotalWeight(l, [steps]) == Weight(l.kind, Put(l, steps))
  {
    hide Weight, Put;
    assert [steps][1..] == [];
  }

  /** No page gets more bits than that before it is compressed. */
  function MostBits(l: Layout, groups: seq<seq<Step>>): nat {
    PAGE_OVERHEAD + TotalWeight(l, groups)
  }

  /** What is put on the column is not too large for the pages of a chunk, however it is cut. */
  predicate Fitting(l: Layout, steps: seq<Step>) {
    MostBits(l, [steps]) < PAGE_LIMIT
  }

  method WriteChunk(l: Layout, encoding: Encoding, steps: seq<Step>) returns (chunk: seq<StoredPage>)
    requires l.Valid() && Codable(encoding) && Allowed(l, steps) && PagesFit(NewCoder(l.kind, encoding), l, steps)
    ensures AllSmall(chunk) ==> Stores(l, chunk, Reading(NewCoder(l.kind, encoding), l, steps))
    ensures Fitting(l, steps) ==> AllSmall(chunk)
    ensures InFrontOnly(chunk, encoding == RLE_DICTIONARY) && DataEncodings(chunk) == ChunkEncodings(l, encoding, [], steps)
  {
    hide DataEncodings, ChunkEncodings, EncodingsOfChunk, InFrontOnly, Allowed, PagesFit, Layout.Valid, Stores, AllSmall, Put, Weight, Reading, StateAfter, PagesWithin, AllFormed,
      ColumnChunkWriter.Valid;
    var w := new ColumnChunkWriter(l, encoding);
    ChunksArePromised(l, encoding, [], steps);
    NoGroups(NewCoder(l.kind, encoding), l, []);
    chunk := WriteGroup(w, steps);
    if Fitting(l, steps) {
      OneGroupWeighs(l, steps);
      WithinIsSmall(chunk, MostBits(l, [steps]));
    }
  }

  lemma {:induction false} NothingPut(w: ColumnChunkWriter, c: Coder, steps: seq<Step>)
    requires w.written == [] && w.current == EMPTY_PAGE
    ensures Put(w.layout, steps[..0]) == [] && Reading(c, w.layout, steps[..0]) == [] && HasPut(w, [])
    ensures StateAfter(c, w.layout, steps[..0]) == c && PageAfter(c, w.layout, steps[..0]) == EMPTY_PAGE
    ensures EncodingsAfter(c, w.layout, steps[..0]) == DataEncodings([]) && Rows(Put(w.layout, steps[..0])) == 0
  {
  }

  method Finish(w: ColumnChunkWriter, ghost ts: seq<Triplet>, ghost bits: nat) returns (chunk: seq<StoredPage>)
    requires w.Valid() && HasPut(w, ts)
    modifies w.Repr()
    ensures Between(w) && fresh(w.Repr() - old(w.Repr())) && w.rows_written == old(w.rows_written)
    ensures w.val_encoder.State() == old(w.val_encoder.State()).Flush() && w.val_encoder.DictBits() == old(w.val_encoder.DictBits())
    ensures AllSmall(chunk) ==> Stores(w.layout, chunk, ts)
    ensures w.val_encoder.DictBits() <= bits && PAGE_OVERHEAD + Weight(w.layout.kind, ts) <= bits ==> PagesWithin(chunk, bits)
    ensures AllFormed(chunk, w.layout) && InFrontOnly(chunk, w.val_encoder.dictionary)
    ensures DataEncodings(chunk) ==
      DataEncodings(old(w.pages)) + (if old(w.current.defs) == [] then [] else [EncodingIn(old(w.val_encoder.State()))])
  {
    hide ColumnChunkWriter.Valid, DataEncodings, EncodingIn, InFrontOnly, HoldsAll, Triplets, CountMax, AllTriplets, AllSmall, PageRoom, Formed, Weight, Coder.Flush;
    var l := w.layout;
    ghost var current, written := w.current, w.written;
    ghost var held;
    chunk, held := w.FlushChunk(bits);
    if current.defs == [] {
      EmptyPage(current, l.def_level);
      assert written + [] == written;
    } else {
      AllTripletsAppend(written, current, l.def_level, l.rep_level);
    }
    assert AllTriplets(held, l.def_level, l.rep_level) == ts;
    RoomOfPages(l.kind, held, l.def_level, l.rep_level);
  }

  /** The triplets of successive batches of the given sizes. */
  method ReadBatches(r: ColumnChunkReader, sizes: seq<nat>) returns (read: seq<Triplet>)
    requires r.Valid() && forall i :: 0 <= i < |sizes| ==> sizes[i] > 0
    modifies r.Repr()
    ensures r.Valid()
    ensures old(r.Rest()) == read + r.Rest() && (r.Rest() == [] || |read| >= |sizes|)
  {
    hide ColumnChunkReader.Valid, ColumnChunkReader.Rest, Triplets, CountMax;
    ghost var all := r.Rest();
    read := [];
    for i := 0 to |sizes|
      invariant r.Valid() && fresh(r.Repr() - old(r.Repr()))
      invariant all == read + r.Rest() && (r.Rest() == [] || |read| >= i)
    {
      var batch := r.ReadBatch(sizes[i]);
      Associate(read, PageTriplets(batch, r.layout.def_level), r.Rest());
      read := read + PageTriplets(batch, r.layout.def_level);
    }
  }

  /** What a reader gets, levels and values in order, across pages, encodings and batch sizes: all
      of it, when there are as many batches as triplets. That is what has been put on the column if
      and only if the encoder keeps every value. Only too much data can make a page too large. */
  method RoundTrip(l: Layout, encoding: Encoding, steps: seq<Step>, sizes: seq<nat>)
    returns (chunk: seq<StoredPage>, read: seq<Triplet>)
    requires l.Valid() && Codable(encoding) && Allowed(l, steps) && PagesFit(NewCoder(l.kind, encoding), l, steps)
    requires forall i :: 0 <= i < |sizes| ==> sizes[i] > 0
    ensures AllSmall(chunk) ==> read <= Reading(NewCoder(l.kind, encoding), l, steps)
    ensures AllSmall(chunk) && |sizes| >= |steps| ==>
      && read == Reading(NewCoder(l.kind, encoding), l, steps)
      && (read == Put(l, steps) <==> Faithful(NewCoder(l.kind, encoding), l, steps))
    ensures Fitting(l, steps) ==> AllSmall(chunk)
    ensures InFrontOnly(chunk, encoding == RLE_DICTIONARY) && DataEncodings(chunk) == ChunkEncodings(l, encoding, [], steps)
  {
    hide DataEncodings, ChunkEncodings, InFrontOnly, ColumnChunkReader.Valid, ColumnChunkReader.Rest, HoldsAll, Triplets, CountMax, AllTriplets, Layout.Valid,
      Allowed, PagesFit,
      Fitting, Faithful, Reading, Put, Coder.Kept;
    read := [];
    ghost var c := NewCoder(l.kind, encoding);
    chunk := WriteChunk(l, encoding, steps);
    NewIsKept(l.kind, encoding);
    ReadBackIffFaithful(c, l, steps);
    FewPuts(l, steps);
    if AllSmall(chunk) {
      ghost var held :| HoldsAll(chunk, l, None, held)
        && AllInRange(held, l.def_level, l.rep_level) && AllTriplets(held, l.def_level, l.rep_level) == Reading(c, l, steps);
      var r := new ColumnChunkReader(l, chunk, held);
      read := ReadBatches(r, sizes);
      assert read + [] == read;
    }
  }

  lemma {:induction false} FewPuts(l: Layout, steps: seq<Step>)
    ensures |Put(l, steps)| <= |steps|
  {
    if steps != [] {
      FewPuts(l, steps[..|steps| - 1]);
    }
  }
}
