/**
The recursive field readers and the record reader. Each is given the leaves of its own subtree
and does to their columns and to the consumer what the function of the same name says.
 */
module FieldReading {
  import opened Options
  import opened Bits
  import opened Records
  import A = Assembly
  import P = Protocols
  import opened RecordReading

  type Leaf = TypedPrimitiveReader

  ghost predicate Ready(leaves: seq<Leaf>)
    reads leaves
  {
    && (forall i :: 0 <= i < |leaves| ==> leaves[i].Valid())
    && (forall i, j :: 0 <= i < j < |leaves| ==> leaves[i] != leaves[j])
  }

  /** The columns that the leaves have not returned yet. */
  ghost function Rests(leaves: seq<Leaf>): (cols: Columns)
    reads leaves
    ensures |cols| == |leaves|
  {
    seq(|leaves|, i requires 0 <= i < |leaves| reads leaves => leaves[i].rest)
  }

  /** One leaf with the same levels for every primitive below the node. */
  predicate Fits(node: Node, leaves: seq<Leaf>) {
    |leaves| == Leaves(node) &&
    match node
    case Primitive(_, d, r, _) => leaves[0].def_level == d && leaves[0].rep_level == r
    case Pair(key, value) => Fits(key, leaves[..Leaves(key)]) && Fits(value, leaves[Leaves(key)..])
    case Struct(_, fields) => AllFit(fields, leaves)
    case _ => Fits(node.body, leaves)
  }

  predicate AllFit(fields: seq<Node>, leaves: seq<Leaf>) {
    |leaves| == LeavesOf(fields) &&
    (fields == [] ||
     (Fits(fields[0], leaves[..Leaves(fields[0])]) && AllFit(fields[1..], leaves[Leaves(fields[0])..])))
  }

  ghost predicate Apart(a: seq<Leaf>, b: seq<Leaf>) {
    forall i, j :: 0 <= i < |a| && 0 <= j < |b| ==> a[i] != b[j]
  }

  lemma {:induction false} ReadyApart(a: seq<Leaf>, b: seq<Leaf>)
    requires Ready(a + b)
    ensures Ready(a) && Ready(b) && Apart(a, b)
  {
    var ab := a + b;
    assert forall i :: 0 <= i < |a| ==> a[i] == ab[i];
    assert forall i :: 0 <= i < |b| ==> b[i] == ab[|a| + i];
  }

  lemma {:induction false} ReadyTogether(a: seq<Leaf>, b: seq<Leaf>)
    requires Ready(a) && Ready(b) && Apart(a, b)
    ensures Ready(a + b)
  {
  }

  lemma {:induction false} ReadyParts(a: seq<Leaf>, b: seq<Leaf>)
    ensures Ready(a + b) <==> Ready(a) && Ready(b) && Apart(a, b)
    ensures Rests(a + b) == Rests(a) + Rests(b)
  {
    hide Ready, Apart;
    if Ready(a + b) {
      ReadyApart(a, b);
    } else if Ready(a) && Ready(b) && Apart(a, b) {
      ReadyTogether(a, b);
    }
  }

  lemma {:induction false} ReadySplit(leaves: seq<Leaf>, n: nat, front: seq<Leaf>, back: seq<Leaf>)
    requires n <= |leaves| && front == leaves[..n] && back == leaves[n..]
    ensures Ready(leaves) <==> Ready(front) && Ready(back) && Apart(front, back)
    ensures Rests(leaves)[..n] == Rests(front) && Rests(leaves)[n..] == Rests(back)
    ensures Rests(leaves) == Rests(front) + Rests(back)
  {
    hide Ready, Rests, Apart;
    assert leaves == front + back;
    ReadyParts(front, back);
    Parts(Rests(front), Rests(back));
  }

  // ----- Current levels -----

  method CurrentLevels(node: Node, leaves: seq<Leaf>) returns (levels: A.Levels)
    requires Fits(node, leaves) && Ready(leaves)
    modifies leaves
    ensures Ready(leaves) && Rests(leaves) == old(Rests(leaves))
    ensures levels == A.CurrentLevels(node, Rests(leaves))
    decreases node, 0
  {
    match node
    case Primitive(_, _, _, _) => levels := leaves[0].CurrentLevels();
    case Pair(key, value) => levels := FrontLevels(key, leaves);
    case Struct(_, fields) => levels := FirstLevels(fields, leaves);
    case _ => levels := CurrentLevels(node.body, leaves);
  }

  method FirstLevels(fields: seq<Node>, leaves: seq<Leaf>) returns (levels: A.Levels)
    requires AllFit(fields, leaves) && Ready(leaves)
    modifies leaves
    ensures Ready(leaves) && Rests(leaves) == old(Rests(leaves))
    ensures levels == A.FirstLevels(fields, Rests(leaves))
    decreases fields, 0
  {
    hide Ready, Rests;
    if fields == [] {
      return A.NO_LEVELS;
    }
    levels := FrontLevels(fields[0], leaves);
  }

  /** The levels of a child whose leaves come first. */
  method FrontLevels(node: Node, leaves: seq<Leaf>) returns (levels: A.Levels)
    requires Leaves(node) <= |leaves| && Fits(node, leaves[..Leaves(node)]) && Ready(leaves)
    modifies leaves
    ensures Ready(leaves) && Rests(leaves) == old(Rests(leaves))
    ensures levels == A.CurrentLevels(node, Rests(leaves)[..Leaves(node)])
    decreases node, 1
  {
    hide Ready, Rests, A.CurrentLevels, Fits, Leaves;
    var n := Leaves(node);
    var front, back := leaves[..n], leaves[n..];
    ReadySplit(leaves, n, front, back);
    levels := CurrentLevels(node, front);
    ReadySplit(leaves, n, front, back);
  }

  // ----- Skipping -----

  /** What a skipping method does: the columns of the outcome, or a failure. */
  ghost predicate Skips(o: A.Outcome, ok: bool, rests: Columns) {
    ok == o.Read? && (ok ==> rests == o.rest)
  }

  lemma {:induction false} SkipsBeside(o: A.Outcome, p: A.Outcome, ok: bool, okToo: bool, r1: Columns, r2: Columns)
    requires Skips(o, ok, r1) && if ok then Skips(p, okToo, r2) else !okToo
    ensures Skips(A.Beside(o, p), okToo, r1 + r2)
  {
  }

  method SkipField(node: Node, leaves: seq<Leaf>) returns (ok: bool)
    requires Fits(node, leaves) && Ready(leaves)
    modifies leaves
    ensures Ready(leaves)
    ensures Skips(A.SkipField(node, old(Rests(leaves))), ok, Rests(leaves))
    decreases node, 1
  {
    hide A.SkipFields, AllFit, A.Advanced;
    match node
    case Primitive(_, _, _, _) =>
      var t := leaves[0].Next();
      ok := t.Some?;
      assert ok ==> Rests(leaves) == [old(Rests(leaves))[0][1..]];
    case Pair(key, value) => ok := SkipPair(key, value, leaves);
    case Struct(_, fields) => ok := SkipFields(fields, leaves);
    case _ => ok := SkipField(node.body, leaves);
  }

  method SkipPair(key: Node, value: Node, leaves: seq<Leaf>) returns (ok: bool)
    requires |leaves| == Leaves(key) + Leaves(value) && Ready(leaves)
    requires Fits(key, leaves[..Leaves(key)]) && Fits(value, leaves[Leaves(key)..])
    modifies leaves
    ensures Ready(leaves)
    ensures Skips(A.SkipPair(key, value, old(Rests(leaves))), ok, Rests(leaves))
    decreases Pair(key, value), 0
  {
    hide Ready, Rests, A.Advanced, A.SkipField, A.Beside, Fits, Leaves, Skips;
    var n := Leaves(key);
    var front, back := leaves[..n], leaves[n..];
    ReadySplit(leaves, n, front, back);
    ghost var o, p := A.SkipField(key, Rests(front)), A.SkipField(value, Rests(back));
    var first := SkipField(key, front);
    ghost var rest := Rests(front);
    ok := first;
    if first {
      ok := SkipField(value, back);
    }
    ReadySplit(leaves, n, front, back);
    SkipsBeside(o, p, first, ok, rest, Rests(back));
  }

  method SkipFields(fields: seq<Node>, leaves: seq<Leaf>) returns (ok: bool)
    requires AllFit(fields, leaves) && Ready(leaves)
    modifies leaves
    ensures Ready(leaves)
    ensures Skips(A.SkipFields(fields, old(Rests(leaves))), ok, Rests(leaves))
    decreases fields, 0
  {
    hide Ready, Rests, A.Advanced, A.SkipField, A.Beside, Fits, Leaves;
    if fields == [] {
      return true;
    }
    var n := Leaves(fields[0]);
    var front, back := leaves[..n], leaves[n..];
    ReadySplit(leaves, n, front, back);
    ghost var o, p := A.SkipField(fields[0], Rests(front)), A.SkipFields(fields[1..], Rests(back));
    var first := SkipField(fields[0], front);
    ghost var rest := Rests(front);
    ok := first;
    if first {
      ok := SkipFields(fields[1..], back);
    }
    ReadySplit(leaves, n, front, back);
    SkipsBeside(o, p, first, ok, rest, Rests(back));
  }

  // ----- Reading -----

  /** What a reading method does: the calls and the columns of the outcome, or a failure. */
  ghost predicate Does(o: A.Outcome, ok: bool, before: seq<Event>, after: seq<Event>, rests: Columns) {
    ok == o.Read? && (ok ==> after == before + o.events && rests == o.rest)
  }

  lemma {:induction false} DoesNothing(leaves: seq<Leaf>, c: Consumer)
    requires leaves == []
    ensures Does(A.Read([], []), true, c.calls, c.calls, Rests(leaves))
  {
  }

  lemma {:induction false} DoesBeside(
    e: Event, o: A.Outcome, p: A.Outcome, ok: bool, okToo: bool,
    s0: seq<Event>, s1: seq<Event>, s2: seq<Event>, r1: Columns, r2: Columns)
    requires Does(o, ok, s0 + [e], s1, r1) && if ok then Does(p, okToo, s1, s2, r2) else !okToo
    ensures Does(A.Beside(A.Around([e], o, []), p), okToo, s0, s2, r1 + r2)
  {
    if ok && okToo {
      Associate(s0, [e], o.events);
      Associate(s0, [e] + o.events, p.events);
      assert [e] + o.events + [] == [e] + o.events;
    }
  }

  method ReadField(node: Node, leaves: seq<Leaf>, c: Consumer) returns (ok: bool)
    requires Fits(node, leaves) && Ready(leaves)
    modifies leaves, c
    ensures Ready(leaves)
    ensures Does(A.ReadField(node, old(Rests(leaves))), ok, old(c.calls), c.calls, Rests(leaves))
    decreases node, 3
  {
    hide A.ReadFields, AllFit, A.Advanced, Rests, Ready, A.ReadItems, A.SkipField, A.ReadPair;
    match node
    case Primitive(_, _, _, _) => ok := ReadPrimitive(node, leaves, c);
    case Optional(_, _, _, _) => ok := ReadOptional(node, leaves, c);
    case Pair(key, value) => ok := ReadPair(key, value, leaves, c);
    case Struct(_, fields) =>
      c.Call(StartStruct);
      ok := ReadFields(fields, leaves, c);
      if ok {
        c.Call(EndStruct);
      }
    case _ => ok := ReadRepeated(node, leaves, c);
  }

  method ReadPrimitive(node: Node, leaves: seq<Leaf>, c: Consumer) returns (ok: bool)
    requires node.Primitive? && Fits(node, leaves) && Ready(leaves)
    modifies leaves, c
    ensures Ready(leaves)
    ensures Does(A.ReadPrimitive(node, old(Rests(leaves))), ok, old(c.calls), c.calls, Rests(leaves))
  {
    var t := leaves[0].Next();
    ok := t.Some?;
    if ok && t.value.value.Some? {
      c.Call(AppendValue(t.value.value.value));
    }
    assert ok ==> Rests(leaves) == [old(Rests(leaves))[0][1..]];
  }

  method ReadOptional(node: Node, leaves: seq<Leaf>, c: Consumer) returns (ok: bool)
    requires node.Optional? && Fits(node, leaves) && Ready(leaves)
    modifies leaves, c
    ensures Ready(leaves)
    ensures Does(A.ReadField(node, old(Rests(leaves))), ok, old(c.calls), c.calls, Rests(leaves))
    decreases node, 2
  {
    hide A.Advanced, Rests, Ready, A.SkipField;
    var levels := CurrentLevels(node.body, leaves);
    if levels.def > node.def_level {
      ok := ReadField(node.body, leaves, c);
    } else {
      c.Call(AppendNull);
      ok := SkipField(node.body, leaves);
    }
  }

  lemma {:induction false} DoesPair(
    o: A.Outcome, p: A.Outcome, ok: bool, okToo: bool,
    s0: seq<Event>, s1: seq<Event>, s2: seq<Event>, r1: Columns, r2: Columns)
    requires Does(o, ok, s0, s1, r1) && if ok then Does(p, okToo, s1 + [SeparateKeyValue], s2, r2) else !okToo
    ensures Does(A.Beside(A.Around([], o, [SeparateKeyValue]), p), okToo, s0, s2, r1 + r2)
  {
    if ok && okToo {
      Associate(s0, o.events, [SeparateKeyValue]);
      Associate(s0, o.events + [SeparateKeyValue], p.events);
      assert [] + o.events == o.events;
    }
  }

  method ReadPair(key: Node, value: Node, leaves: seq<Leaf>, c: Consumer) returns (ok: bool)
    requires |leaves| == Leaves(key) + Leaves(value) && Ready(leaves)
    requires Fits(key, leaves[..Leaves(key)]) && Fits(value, leaves[Leaves(key)..])
    modifies leaves, c
    ensures Ready(leaves)
    ensures Does(A.ReadPair(key, value, old(Rests(leaves))), ok, old(c.calls), c.calls, Rests(leaves))
    decreases Pair(key, value), 2
  {
    hide Ready, Rests, A.Advanced, A.ReadField, A.Beside, A.Around, Fits, Leaves, Does;
    var n := Leaves(key);
    var front, back := leaves[..n], leaves[n..];
    ReadySplit(leaves, n, front, back);
    ghost var o, p := A.ReadField(key, Rests(front)), A.ReadField(value, Rests(back));
    var first := ReadField(key, front, c);
    ghost var said, rest := c.calls, Rests(front);
    ok := first;
    if first {
      c.Call(SeparateKeyValue);
      ok := ReadField(value, back, c);
    }
    ReadySplit(leaves, n, front, back);
    DoesPair(o, p, first, ok, old(c.calls), said, c.calls, rest, Rests(back));
  }

  method ReadFields(fields: seq<Node>, leaves: seq<Leaf>, c: Consumer) returns (ok: bool)
    requires AllFit(fields, leaves) && Ready(leaves)
    modifies leaves, c
    ensures Ready(leaves)
    ensures Does(A.ReadFields(fields, old(Rests(leaves))), ok, old(c.calls), c.calls, Rests(leaves))
    decreases fields, 2
  {
    hide Ready, Rests, A.Advanced, A.ReadField, A.Beside, A.Around, Fits, Leaves, Does;
    if fields == [] {
      DoesNothing(leaves, c);
      return true;
    }
    var n := Leaves(fields[0]);
    var front, back := leaves[..n], leaves[n..];
    ReadySplit(leaves, n, front, back);
    ghost var o, p := A.ReadField(fields[0], Rests(front)), A.ReadFields(fields[1..], Rests(back));
    c.Call(Announce(fields[0], false));
    var first := ReadField(fields[0], front, c);
    ghost var said, rest := c.calls, Rests(front);
    ok := first;
    if first {
      ok := ReadFields(fields[1..], back, c);
    }
    ReadySplit(leaves, n, front, back);
    DoesBeside(Announce(fields[0], false), o, p, first, ok, old(c.calls), said, c.calls, rest, Rests(back));
  }

  method ReadRepeated(node: Node, leaves: seq<Leaf>, c: Consumer) returns (ok: bool)
    requires node.Repeated() && Fits(node, leaves) && Ready(leaves)
    modifies leaves, c
    ensures Ready(leaves)
    ensures Does(A.ReadField(node, old(Rests(leaves))), ok, old(c.calls), c.calls, Rests(leaves))
    decreases node, 2
  {
    hide A.Advanced, Rests, Ready, A.SkipField, A.ReadItems;
    c.Call(Start(node));
    var levels := CurrentLevels(node.body, leaves);
    if levels.def > node.def_level {
      ok := ReadItems(node, leaves, c);
    } else {
      ok := SkipField(node.body, leaves);
    }
    if ok {
      c.Call(End(node));
    }
  }

  method ReadItems(node: Node, leaves: seq<Leaf>, c: Consumer) returns (ok: bool)
    requires node.Repeated() && Fits(node, leaves) && Ready(leaves)
    modifies leaves, c
    ensures Ready(leaves)
    ensures Does(A.ReadItems(node, old(Rests(leaves))), ok, old(c.calls), c.calls, Rests(leaves))
    decreases node, 1
  {
    hide A.Advanced, Rests, Ready, A.ReadField, A.ReadMore;
    ok := ReadField(node.body, leaves, c);
    ghost var after, rest := c.calls, Rests(leaves);
    if ok {
      ok := ReadMore(node, leaves, c);
    }
  }

  lemma {:induction false} AroundTwice(a: seq<Event>, b: seq<Event>, o: A.Outcome)
    ensures A.Around(a, A.Around(b, o, []), []) == A.Around(a + b, o, [])
    ensures A.Around(a, A.Failed, []) == A.Failed && A.Around([], o, []) == o
  {
    if o.Read? {
      assert a + (b + o.events + []) + [] == a + b + o.events + [];
    }
  }

  lemma {:induction false} DoesAll(a: seq<Event>, before: seq<Event>, rests: Columns)
    ensures Does(A.Around(a, A.Read([], rests), []), true, before, before + a, rests)
  {
    assert a + [] + [] == a;
  }

  /** The loop over the later items of a list or map. */
  method ReadMore(node: Node, leaves: seq<Leaf>, c: Consumer) returns (ok: bool)
    requires node.Repeated() && Fits(node, leaves) && Ready(leaves)
    modifies leaves, c
    ensures Ready(leaves)
    ensures Does(A.ReadMore(node, old(Rests(leaves))), ok, old(c.calls), c.calls, Rests(leaves))
    decreases node, 1, 0
  {
    hide A.Advanced, Rests, Ready, A.ReadMore, A.Around, Leaves;
    ghost var whole := A.ReadMore(node, Rests(leaves));
    ghost var said: seq<Event> := [];
    AroundTwice([], [], whole);
    var more := true;
    ok := true;
    while ok && more
      invariant Ready(leaves)
      invariant ok && more ==> c.calls == old(c.calls) + said && whole == A.Around(said, A.ReadMore(node, Rests(leaves)), [])
      invariant ok && !more ==> Does(whole, true, old(c.calls), c.calls, Rests(leaves))
      invariant !ok ==> whole.Failed?
      decreases ok && more, Waiting(Rests(leaves))
    {
      ghost var item: seq<Event>;
      ok, more, item := NextItem(node, leaves, c);
      Associate(old(c.calls), said, item);
      AroundTwice(said, item, if more && ok then A.ReadMore(node, Rests(leaves)) else A.Read([], Rests(leaves)));
      said := said + item;
      DoesAll(said, old(c.calls), Rests(leaves));
    }
  }

  ghost function Waiting(cols: Columns): nat {
    if cols == [] then 0 else |cols[0]|
  }

  /** One pass of the loop: another item, if the next triplet starts deep enough. */
  method NextItem(node: Node, leaves: seq<Leaf>, c: Consumer) returns (ok: bool, more: bool, ghost said: seq<Event>)
    requires node.Repeated() && Fits(node, leaves) && Ready(leaves)
    modifies leaves, c
    ensures Ready(leaves) && (!more ==> ok)
    ensures var o := A.ReadMore(node, old(Rests(leaves)));
      if !ok then o.Failed?
      else c.calls == old(c.calls) + said && o == A.Around(said, if more then A.ReadMore(node, Rests(leaves)) else A.Read([], Rests(leaves)), [])
    ensures ok && more ==> Waiting(Rests(leaves)) < Waiting(old(Rests(leaves)))
    ensures !more ==> said == []
    decreases node, 0
  {
    hide Rests, Ready, A.ReadField;
    said := [];
    ok := true;
    var levels := CurrentLevels(node.body, leaves);
    more := levels.rep > node.rep_level;
    if more {
      ghost var o := A.ReadField(node.body, Rests(leaves));
      c.Call(Separate(node));
      ok := ReadField(node.body, leaves, c);
      if ok {
        said := [Separate(node)] + o.events;
      }
    }
  }

  // ----- Records -----

  class RecordReader {
    const fields: seq<Node>
    const leaves: seq<Leaf>

    constructor (fields: seq<Node>, leaves: seq<Leaf>)
      ensures this.fields == fields && this.leaves == leaves
    {
      this.fields, this.leaves := fields, leaves;
    }

    ghost predicate Valid()
      reads leaves
    {
      AllFit(fields, leaves) && Ready(leaves)
    }

    /** One record: each top-level field is announced as a column. */
    method ReadOne(c: Consumer) returns (ok: bool)
      requires Valid()
      modifies leaves, c
      ensures Valid()
      ensures Does(A.ReadOne(fields, old(Rests(leaves))), ok, old(c.calls), c.calls, Rests(leaves))
    {
      hide Ready, Rests, A.Advanced, A.ReadColumns, AllFit;
      c.Call(StartRecord);
      ok := ReadColumns(fields, leaves, c);
      if ok {
        c.Call(EndRecord);
      }
    }

    /** All records, until the first leaf has no triplets left. */
    method ReadAll(c: Consumer) returns (ok: bool)
      requires Valid()
      modifies leaves, c
      ensures Valid()
      ensures Does(A.ReadAll(fields, old(Rests(leaves))), ok, old(c.calls), c.calls, Rests(leaves))
      ensures ok && AllLevelled(fields, 0, 0) ==> old(c.calls) <= c.calls && P.Closed([], c.calls[|old(c.calls)|..])
    {
      hide Ready, Rests, AllLevelled, P.Closed, A.Advanced, A.ReadAll, A.Around;
      ghost var whole := A.ReadAll(fields, Rests(leaves));
      ghost var said: seq<Event> := [];
      AroundTwice([], [], whole);
      if AllLevelled(fields, 0, 0) && whole.Read? {
        P.ReadAllNested(fields, Rests(leaves));
        assert (c.calls + whole.events)[|c.calls|..] == whole.events;
      }
      var more := true;
      ok := true;
      while ok && more
        invariant Valid()
        invariant ok && more ==> c.calls == old(c.calls) + said && whole == A.Around(said, A.ReadAll(fields, Rests(leaves)), [])
        invariant ok && !more ==> Does(whole, true, old(c.calls), c.calls, Rests(leaves))
        invariant !ok ==> whole.Failed?
        decreases ok && more, Waiting(Rests(leaves))
      {
        ghost var record: seq<Event>;
        ok, more, record := NextRecord(c);
        Associate(old(c.calls), said, record);
        AroundTwice(said, record, if more && ok then A.ReadAll(fields, Rests(leaves)) else A.Read([], Rests(leaves)));
        said := said + record;
        DoesAll(said, old(c.calls), Rests(leaves));
      }
    }

    /** One pass of the loop: another record, if the first leaf has a triplet left. */
    method NextRecord(c: Consumer) returns (ok: bool, more: bool, ghost said: seq<Event>)
      requires Valid()
      modifies leaves, c
      ensures Valid() && (!more ==> ok)
      ensures var o := A.ReadAll(fields, old(Rests(leaves)));
        if !ok then o.Failed?
        else
          && c.calls == old(c.calls) + said
          && o == A.Around(said, if more then A.ReadAll(fields, Rests(leaves)) else A.Read([], Rests(leaves)), [])
      ensures ok && more ==> Waiting(Rests(leaves)) < Waiting(old(Rests(leaves)))
      ensures !more ==> said == []
    {
      hide Rests, Ready, A.ReadOne;
      said := [];
      ok := true;
      var levels := FirstLevels(fields, leaves);
      more := levels.def >= 0;
      if more {
        ghost var o := A.ReadOne(fields, Rests(leaves));
        ok := ReadOne(c);
        if ok {
          said := o.events;
        }
      }
    }
  }

  method ReadColumns(fields: seq<Node>, leaves: seq<Leaf>, c: Consumer) returns (ok: bool)
    requires AllFit(fields, leaves) && Ready(leaves)
    modifies leaves, c
    ensures Ready(leaves)
    ensures Does(A.ReadColumns(fields, old(Rests(leaves))), ok, old(c.calls), c.calls, Rests(leaves))
    decreases fields, 2
  {
    hide Ready, Rests, A.Advanced, A.ReadColumn, A.Beside, A.Around, Fits, Leaves, Does;
    if fields == [] {
      DoesNothing(leaves, c);
      return true;
    }
    var n := Leaves(fields[0]);
    var front, back := leaves[..n], leaves[n..];
    ReadySplit(leaves, n, front, back);
    ghost var o, p := A.ReadColumn(fields[0], Rests(front)), A.ReadColumns(fields[1..], Rests(back));
    var first := ReadColumn(fields[0], front, c);
    ghost var said, rest := c.calls, Rests(front);
    ok := first;
    if first {
      ok := ReadColumns(fields[1..], back, c);
    }
    ReadySplit(leaves, n, front, back);
    DoesBoth(A.Around([Announce(fields[0], true)], o, []), p, first, ok, old(c.calls), said, c.calls, rest, Rests(back));
  }

  lemma {:induction false} DoesBoth(
    o: A.Outcome, p: A.Outcome, first: bool, ok: bool, before: seq<Event>, said: seq<Event>, after: seq<Event>,
    r1: Columns, r2: Columns)
    requires Does(o, first, before, said, r1) && (first ==> Does(p, ok, said, after, r2)) && (!first ==> !ok)
    ensures Does(A.Beside(o, p), ok, before, after, r1 + r2)
  {
    if ok {
      Associate(before, o.events, p.events);
    }
  }

  method ReadColumn(node: Node, leaves: seq<Leaf>, c: Consumer) returns (ok: bool)
    requires Fits(node, leaves) && Ready(leaves)
    modifies leaves, c
    ensures Ready(leaves)
    ensures Does(A.Around([Announce(node, true)], A.ReadColumn(node, old(Rests(leaves))), []),
      ok, old(c.calls), c.calls, Rests(leaves))
  {
    hide Ready, Rests, A.Advanced, A.ReadField, A.SkipField, Leaves, A.CurrentLevels;
    var levels := CurrentLevels(node, leaves);
    c.Call(Announce(node, true));
    if node.Optional? && levels.def <= 0 {
      c.Call(AppendNull);
      ok := SkipField(node, leaves);
    } else {
      ok := ReadField(node, leaves, c);
    }
  }

  // ----- Opening a row group -----

  /** Levels are kept in 16 bits. */
  const MAX_LEVEL := 32767

  predicate Supported(prims: seq<Node>) {
    forall i :: 0 <= i < |prims| && prims[i].Primitive? ==>
      prims[i].def_level <= MAX_LEVEL && prims[i].rep_level <= MAX_LEVEL
  }

  lemma {:induction false} SupportedIff(prims: seq<Node>)
    requires forall i :: 0 <= i < |prims| ==> prims[i].Primitive?
    ensures Supported(prims) <==> forall i :: 0 <= i < |prims| ==> prims[i].def_level < 0x8000 && prims[i].rep_level < 0x8000
  {
  }

  /** There is a column for each primitive, with levels up to its maxima. */
  predicate HasColumns(prims: seq<Node>, chunks: seq<seq<Page>>) {
    forall i :: 0 <= i < |prims| ==>
      && prims[i].Primitive? && prims[i].column_index < |chunks|
      && AllInRange(chunks[prims[i].column_index], prims[i].def_level, prims[i].rep_level)
  }

  /** The triplets of the columns of `prims`, whatever pages they are cut into. */
  function RowGroup(prims: seq<Node>, chunks: seq<seq<Page>>): (cols: Columns)
    requires HasColumns(prims, chunks)
    ensures |cols| == |prims|
  {
    seq(|prims|, i requires 0 <= i < |prims| =>
      AllTriplets(chunks[prims[i].column_index], prims[i].def_level, prims[i].rep_level))
  }

  lemma {:induction false} ColumnParts(a: seq<Node>, b: seq<Node>, chunks: seq<seq<Page>>)
    ensures HasColumns(a + b, chunks) <==> HasColumns(a, chunks) && HasColumns(b, chunks)
    ensures HasColumns(a + b, chunks) ==> RowGroup(a + b, chunks) == RowGroup(a, chunks) + RowGroup(b, chunks)
    ensures Supported(a + b) <==> Supported(a) && Supported(b)
  {
    var ab := a + b;
    assert forall i :: 0 <= i < |a| ==> a[i] == ab[i];
    assert forall i :: 0 <= i < |b| ==> b[i] == ab[|a| + i];
  }

  /** The readers of a subtree, opened depth first; none if a level does not fit. */
  method MakeField(node: Node, chunks: seq<seq<Page>>, batch_size: nat) returns (leaves: Option<seq<Leaf>>)
    requires batch_size > 0 && HasColumns(Primitives(node), chunks)
    ensures leaves.Some? <==> Supported(Primitives(node))
    ensures leaves.Some? ==> Opened(leaves.value, Primitives(node), chunks) && Fits(node, leaves.value)
    ensures leaves.Some? ==> fresh(leaves.value)
    decreases node
  {
    match node
    case Primitive(_, d, r, i) =>
      if d > MAX_LEVEL || r > MAX_LEVEL {
        assert !Supported([node]) by {
          assert [node][0] == node;
        }
        return None;
      }
      var leaf := new TypedPrimitiveReader(d, r, chunks[i], batch_size);
      assert Rests([leaf]) == RowGroup([node], chunks);
      return Some([leaf]);
    case Pair(key, value) => leaves := MakePair(key, value, chunks, batch_size);
    case Struct(_, fields) => leaves := MakeFields(fields, chunks, batch_size);
    case _ => leaves := MakeField(node.body, chunks, batch_size);
  }

  ghost predicate Opened(leaves: seq<Leaf>, prims: seq<Node>, chunks: seq<seq<Page>>)
    requires HasColumns(prims, chunks)
    reads leaves
  {
    |leaves| == |prims| && Ready(leaves) && Rests(leaves) == RowGroup(prims, chunks)
  }

  method MakePair(key: Node, value: Node, chunks: seq<seq<Page>>, batch_size: nat) returns (leaves: Option<seq<Leaf>>)
    requires batch_size > 0 && HasColumns(Primitives(key) + Primitives(value), chunks)
    ensures leaves.Some? <==> Supported(Primitives(key) + Primitives(value))
    ensures leaves.Some? ==> Opened(leaves.value, Primitives(key) + Primitives(value), chunks)
    ensures leaves.Some? ==> Fits(key, leaves.value[..Leaves(key)]) && Fits(value, leaves.value[Leaves(key)..])
    ensures leaves.Some? ==> fresh(leaves.value)
    decreases Pair(key, value), 0
  {
    hide Ready, Rests, HasColumns, RowGroup, Supported, Fits;
    ColumnParts(Primitives(key), Primitives(value), chunks);
    var k := MakeField(key, chunks, batch_size);
    var v := MakeField(value, chunks, batch_size);
    if k.None? || v.None? {
      return None;
    }
    ReadyParts(k.value, v.value);
    Parts(k.value, v.value);
    return Some(k.value + v.value);
  }

  method MakeFields(fields: seq<Node>, chunks: seq<seq<Page>>, batch_size: nat) returns (leaves: Option<seq<Leaf>>)
    requires batch_size > 0 && HasColumns(PrimitivesOf(fields), chunks)
    ensures leaves.Some? <==> Supported(PrimitivesOf(fields))
    ensures leaves.Some? <==> (forall i :: 0 <= i < |PrimitivesOf(fields)| ==>
      PrimitivesOf(fields)[i].def_level < 0x8000 && PrimitivesOf(fields)[i].rep_level < 0x8000)
    ensures leaves.Some? ==> Opened(leaves.value, PrimitivesOf(fields), chunks) && AllFit(fields, leaves.value)
    ensures leaves.Some? ==> fresh(leaves.value)
    decreases fields
  {
    SupportedIff(PrimitivesOf(fields));
    if fields == [] {
      return Some([]);
    }
    hide Ready, Rests, HasColumns, RowGroup, Supported, Fits, Primitives;
    ColumnParts(Primitives(fields[0]), PrimitivesOf(fields[1..]), chunks);
    var head := MakeField(fields[0], chunks, batch_size);
    var tail := MakeFields(fields[1..], chunks, batch_size);
    if head.None? || tail.None? {
      return None;
    }
    ReadyParts(head.value, tail.value);
    Parts(head.value, tail.value);
    return Some(head.value + tail.value);
  }

  /** Open a row group and read it. However its columns are cut into pages and batches, if they
      are those of some records then the consumer gets the calls that spell the records. */
  method ReadRowGroup(fields: seq<Node>, chunks: seq<seq<Page>>, batch_size: nat, c: Consumer, ghost records: seq<Value>)
    returns (ok: bool)
    requires batch_size > 0 && HasColumns(PrimitivesOf(fields), chunks)
    modifies c
    ensures !Supported(PrimitivesOf(fields)) ==> !ok && c.calls == old(c.calls)
    ensures Supported(PrimitivesOf(fields)) && AllLevelled(fields, 0, 0) && A.Readable(fields)
      && AllRecords(fields, records) && RowGroup(PrimitivesOf(fields), chunks) == ShredRecords(fields, records)
      ==> ok && c.calls == old(c.calls) + SpellRecords(fields, records)
  {
    hide Ready, Rests, HasColumns, RowGroup, Supported, AllFit, AllLevelled, A.Readable, SpellRecords, ShredRecords, A.ReadAll;
    var leaves := MakeFields(fields, chunks, batch_size);
    if leaves.None? {
      return false;
    }
    var reader := new RecordReader(fields, leaves.value);
    ok := reader.ReadAll(c);
    if AllLevelled(fields, 0, 0) && A.Readable(fields)
      && AllRecords(fields, records) && RowGroup(PrimitivesOf(fields), chunks) == ShredRecords(fields, records) {
      A.RecordsReadBack(fields, records);
    }
  }
}
