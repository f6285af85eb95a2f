/**
Records in several row groups: the columns of each are read back by themselves, although the
dictionaries of the writer go on growing from one row group to the next.
 */
module RowGroups {
  import opened Options
  import opened Formats
  import opened Bits
  import opened Records
  import A = Assembly
  import N = Lossless
  import opened PlainCoding
  import opened ValueCoding
  import opened ColumnChunks
  import opened ChunkRoundTrips
  import opened RecordRoundTrips

  // ----- What is put and what is read -----

  /** Every row group has puts for as many columns. */
  predicate Rectangular<T>(groups: seq<seq<T>>, n: nat) {
    forall g :: 0 <= g < |groups| ==> |groups[g]| == n
  }

  /** What is put on column `j` in successive row groups. */
  function ColumnOf<T>(groups: seq<seq<T>>, n: nat, j: nat): (r: seq<T>)
    requires Rectangular(groups, n) && j < n
    ensures |r| == |groups| && forall g :: 0 <= g < |groups| ==> r[g] == groups[g][j]
  {
    seq(|groups|, g requires 0 <= g < |groups| => groups[g][j])
  }

  /** The state in which the encoder of column `j` begins row group `g`. */
  function StateBefore(layouts: seq<Layout>, encodings: seq<Encoding>, groups: seq<seq<seq<Step>>>, g: nat, j: nat): Coder
    requires |encodings| == |layouts| && Rectangular(groups, |layouts|) && g <= |groups| && j < |layouts|
  {
    StateAfterGroups(NewCoder(layouts[j].kind, encodings[j]), layouts[j], ColumnOf(groups, |layouts|, j)[..g])
  }

  /** The puts of every row group suit the columns and their pages. */
  ghost predicate GroupsPuttable(layouts: seq<Layout>, encodings: seq<Encoding>, groups: seq<seq<seq<Step>>>) {
    && |encodings| == |layouts| && Rectangular(groups, |layouts|)
    && (forall j :: 0 <= j < |layouts| ==> layouts[j].Valid() && Codable(encodings[j]))
    && forall g, j :: 0 <= g < |groups| && 0 <= j < |layouts| ==>
      && Allowed(layouts[j], groups[g][j])
      && PagesFit(StateBefore(layouts, encodings, groups, g, j), layouts[j], groups[g][j])
  }

  /** What a reader gets from row group `g`. */
  function GroupRead(layouts: seq<Layout>, encodings: seq<Encoding>, groups: seq<seq<seq<Step>>>, g: nat): (cols: Columns)
    requires |encodings| == |layouts| && Rectangular(groups, |layouts|) && g < |groups|
    ensures |cols| == |layouts|
  {
    seq(|layouts|, j requires 0 <= j < |layouts| =>
      Reading(StateBefore(layouts, encodings, groups, g, j), layouts[j], groups[g][j]))
  }

  /** Every value of every column is kept, in every row group. */
  predicate EachKept(layouts: seq<Layout>, encodings: seq<Encoding>, groups: seq<seq<seq<Step>>>)
    requires |encodings| == |layouts| && Rectangular(groups, |layouts|)
  {
    forall j :: 0 <= j < |layouts| ==>
      AllFaithful(NewCoder(layouts[j].kind, encodings[j]), layouts[j], ColumnOf(groups, |layouts|, j))
  }

  predicate EachReadAsPut(layouts: seq<Layout>, encodings: seq<Encoding>, groups: seq<seq<seq<Step>>>)
    requires |encodings| == |layouts| && Rectangular(groups, |layouts|)
  {
    forall g :: 0 <= g < |groups| ==> GroupRead(layouts, encodings, groups, g) == PutColumns(layouts, groups[g])
  }

  /** All row groups are read as they were put if and only if every value is kept; the levels always are. */
  lemma {:induction false} EachReadBackIff(layouts: seq<Layout>, encodings: seq<Encoding>, groups: seq<seq<seq<Step>>>)
    requires |encodings| == |layouts| && Rectangular(groups, |layouts|)
    ensures forall g :: 0 <= g < |groups| ==>
      N.AllSameShape(GroupRead(layouts, encodings, groups, g), PutColumns(layouts, groups[g]))
    ensures EachReadAsPut(layouts, encodings, groups) <==> EachKept(layouts, encodings, groups)
  {
    hide Faithful, FaithfulTo, Reading, Put, Coder.Kept, N.SameShape, StateAfterGroups, ReadAsPut;
    forall g | 0 <= g < |groups|
      ensures N.AllSameShape(GroupRead(layouts, encodings, groups, g), PutColumns(layouts, groups[g]))
    {
      forall j | 0 <= j < |layouts|
        ensures N.SameShape(GroupRead(layouts, encodings, groups, g)[j], PutColumns(layouts, groups[g])[j])
      {
        ReadingShape(StateBefore(layouts, encodings, groups, g, j), layouts[j], groups[g][j]);
      }
    }
    forall j | 0 <= j < |layouts|
      ensures ColumnReadAsPut(layouts, encodings, groups, j)
        <==> AllFaithful(NewCoder(layouts[j].kind, encodings[j]), layouts[j], ColumnOf(groups, |layouts|, j))
    {
      NewIsKept(layouts[j].kind, encodings[j]);
      GroupsReadBackIff(NewCoder(layouts[j].kind, encodings[j]), layouts[j], ColumnOf(groups, |layouts|, j), |groups|);
    }
    ByColumns(layouts, encodings, groups);
  }

  predicate ColumnReadAsPut(layouts: seq<Layout>, encodings: seq<Encoding>, groups: seq<seq<seq<Step>>>, j: nat)
    requires |encodings| == |layouts| && Rectangular(groups, |layouts|) && j < |layouts|
  {
    ReadAsPut(NewCoder(layouts[j].kind, encodings[j]), layouts[j], ColumnOf(groups, |layouts|, j), |groups|)
  }

  lemma {:induction false} ByColumns(layouts: seq<Layout>, encodings: seq<Encoding>, groups: seq<seq<seq<Step>>>)
    requires |encodings| == |layouts| && Rectangular(groups, |layouts|)
    ensures EachReadAsPut(layouts, encodings, groups)
      <==> forall j :: 0 <= j < |layouts| ==> ColumnReadAsPut(layouts, encodings, groups, j)
  {
    hide Reading, Put, StateAfterGroups;
    if EachReadAsPut(layouts, encodings, groups) {
      forall j, g | 0 <= j < |layouts| && 0 <= g < |groups|
        ensures Reading(StateBefore(layouts, encodings, groups, g, j), layouts[j], groups[g][j]) == Put(layouts[j], groups[g][j])
      {
        assert GroupRead(layouts, encodings, groups, g)[j] == PutColumns(layouts, groups[g])[j];
      }
    }
    if forall j :: 0 <= j < |layouts| ==> ColumnReadAsPut(layouts, encodings, groups, j) {
      forall g | 0 <= g < |groups| ensures GroupRead(layouts, encodings, groups, g) == PutColumns(layouts, groups[g]) {
        forall j | 0 <= j < |layouts|
          ensures GroupRead(layouts, encodings, groups, g)[j] == PutColumns(layouts, groups[g])[j]
        {
          assert ColumnReadAsPut(layouts, encodings, groups, j);
        }
      }
    }
  }

  // ----- Records -----

  function Flatten<T>(groups: seq<seq<T>>): seq<T> {
    if groups == [] then [] else Flatten(groups[..|groups| - 1]) + groups[|groups| - 1]
  }

  predicate EachRecords(fields: seq<Node>, groups: seq<seq<Value>>) {
    forall g :: 0 <= g < |groups| ==> AllRecords(fields, groups[g])
  }

  lemma {:induction false} FlattenRecords(fields: seq<Node>, groups: seq<seq<Value>>)
    requires EachRecords(fields, groups)
    ensures AllRecords(fields, Flatten(groups))
  {
    hide AllConform;
    if groups != [] {
      FlattenRecords(fields, groups[..|groups| - 1]);
    }
  }

  /** Records one after another are spelled one after another. */
  lemma {:induction false} SpellBoth(fields: seq<Node>, a: seq<Value>, b: seq<Value>)
    requires AllRecords(fields, a) && AllRecords(fields, b)
    ensures AllRecords(fields, a + b) && SpellRecords(fields, a + b) == SpellRecords(fields, a) + SpellRecords(fields, b)
  {
    hide AllConform, SpellFields;
    if a == [] {
      assert a + b == b;
    } else {
      SpellBoth(fields, a[1..], b);
      assert (a + b)[1..] == a[1..] + b && (a + b)[0] == a[0];
      var first := [StartRecord] + SpellFields(fields, a[0].fields, true) + [EndRecord];
      Associate(first, SpellRecords(fields, a[1..]), SpellRecords(fields, b));
    }
  }

  /** As many records in each group, and the same ones in all. */
  lemma {:induction false} SameGroups<T>(a: seq<seq<T>>, b: seq<seq<T>>)
    requires |a| == |b| && forall g :: 0 <= g < |a| ==> |a[g]| == |b[g]|
    ensures Flatten(a) == Flatten(b) <==> a == b
    ensures |Flatten(a)| == |Flatten(b)|
  {
    if a != [] {
      var n := |a| - 1;
      SameGroups(a[..n], b[..n]);
      var x, y := Flatten(a[..n]), Flatten(b[..n]);
      if Flatten(a) == Flatten(b) {
        assert x == Flatten(a)[..|x|] && a[n] == Flatten(a)[|x|..];
        assert y == Flatten(b)[..|y|] && b[n] == Flatten(b)[|y|..];
        assert a == a[..n] + [a[n]] && b == b[..n] + [b[n]];
      }
    }
  }

  /** The records that a reader gets, of the same shape as those put. */
  lemma {:induction false} RecordsRead(
    fields: seq<Node>, layouts: seq<Layout>, encodings: seq<Encoding>, groups: seq<seq<seq<Step>>>, records: seq<seq<Value>>)
    returns (read: seq<seq<Value>>)
    requires |encodings| == |layouts| && Rectangular(groups, |layouts|) && |records| == |groups| && EachRecords(fields, records)
    requires forall g :: 0 <= g < |groups| ==> PutColumns(layouts, groups[g]) == ShredRecords(fields, records[g])
    ensures |read| == |records| && EachRecords(fields, read)
    ensures forall g :: 0 <= g < |groups| ==>
      |read[g]| == |records[g]| && ShredRecords(fields, read[g]) == GroupRead(layouts, encodings, groups, g)
  {
    hide AllRecords, ShredRecords, GroupRead, PutColumns, N.AllSameShape, EachKept, EachReadAsPut;
    EachReadBackIff(layouts, encodings, groups);
    read := [];
    for g := 0 to |groups|
      invariant |read| == g && EachRecords(fields, read)
      invariant forall i :: 0 <= i < g ==>
        |read[i]| == |records[i]| && ShredRecords(fields, read[i]) == GroupRead(layouts, encodings, groups, i)
    {
      var more := N.RefillRecords(fields, records[g], GroupRead(layouts, encodings, groups, g));
      read := read + [more];
    }
  }

  /** The consumer gets the calls of the records that were written if and only if every value is kept. */
  lemma {:induction false} SameCallsIffKept(
    fields: seq<Node>, layouts: seq<Layout>, encodings: seq<Encoding>, groups: seq<seq<seq<Step>>>,
    records: seq<seq<Value>>, read: seq<seq<Value>>, before: seq<Event>)
    requires AllLevelled(fields, 0, 0) && A.Readable(fields)
    requires |encodings| == |layouts| && Rectangular(groups, |layouts|) && |read| == |records| == |groups|
    requires EachRecords(fields, records) && EachRecords(fields, read)
    requires forall g :: 0 <= g < |groups| ==> PutColumns(layouts, groups[g]) == ShredRecords(fields, records[g])
    requires forall g :: 0 <= g < |groups| ==>
      |read[g]| == |records[g]| && ShredRecords(fields, read[g]) == GroupRead(layouts, encodings, groups, g)
    ensures AllRecords(fields, Flatten(read)) && AllRecords(fields, Flatten(records))
    ensures before + SpellRecords(fields, Flatten(read)) == before + SpellRecords(fields, Flatten(records))
      <==> EachKept(layouts, encodings, groups)
  {
    hide AllRecords, ShredRecords, SpellRecords, GroupRead, PutColumns, AllLevelled, A.Readable, EachKept, N.AllSameShape;
    EachReadBackIff(layouts, encodings, groups);
    FlattenRecords(fields, read);
    FlattenRecords(fields, records);
    SameGroups(read, records);
    SameCalls(fields, Flatten(read), Flatten(records), before);
    forall g | 0 <= g < |groups|
      ensures GroupRead(layouts, encodings, groups, g) == PutColumns(layouts, groups[g]) <==> read[g] == records[g]
    {
      SameCalls(fields, read[g], records[g], before);
    }
  }
}
