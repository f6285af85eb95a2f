/**
Record assembly: what the record readers do with the columns of a row group, and the proof
that it undoes shredding although each decision looks at one column only.
 */
module Assembly {
  import opened Options
  import opened Bits
  import opened Records

  // ----- The readers, as functions on the columns that remain -----

  datatype Outcome = Read(events: seq<Event>, rest: Columns) | Failed

  datatype Levels = Levels(def: int, rep: int)

  const NO_LEVELS := Levels(-1, -1)

  function Around(before: seq<Event>, o: Outcome, after: seq<Event>): Outcome {
    if o.Failed? then Failed else Read(before + o.events + after, o.rest)
  }

  function Beside(o: Outcome, p: Outcome): Outcome {
    if o.Failed? || p.Failed? then Failed else Read(o.events + p.events, o.rest + p.rest)
  }

  /** Every column has lost at least one triplet. */
  predicate Advanced(cols: Columns, rest: Columns) {
    |rest| == |cols| && forall i :: 0 <= i < |cols| ==> |rest[i]| < |cols[i]|
  }

  /** The levels of the next triplet of the first leaf, minus one at the end of the column. */
  function CurrentLevels(node: Node, cols: Columns): (r: Levels)
    requires |cols| == Leaves(node)
    ensures r == Levels(-1, -1) || (|cols| > 0 && |cols[0]| > 0 && r == Levels(cols[0][0].def_level, cols[0][0].rep_level))
    decreases node
  {
    match node
    case Primitive(_, _, _, _) =>
      if cols[0] == [] then NO_LEVELS else Levels(cols[0][0].def_level, cols[0][0].rep_level)
    case Pair(key, _) => CurrentLevels(key, cols[..Leaves(key)])
    case Struct(_, fields) => FirstLevels(fields, cols)
    case _ => CurrentLevels(node.body, cols)
  }

  /** A struct or a record shows the levels of its first field. */
  function FirstLevels(fields: seq<Node>, cols: Columns): (r: Levels)
    requires |cols| == LeavesOf(fields)
    ensures r == Levels(-1, -1) || (|cols| > 0 && |cols[0]| > 0 && r == Levels(cols[0][0].def_level, cols[0][0].rep_level))
    decreases fields
  {
    if fields == [] then NO_LEVELS else CurrentLevels(fields[0], cols[..Leaves(fields[0])])
  }

  function SkipField(node: Node, cols: Columns): (r: Outcome)
    requires |cols| == Leaves(node)
    ensures r.Read? ==> r.events == [] && Advanced(cols, r.rest)
    decreases node, 1
  {
    match node
    case Primitive(_, _, _, _) => if cols[0] == [] then Failed else Read([], [cols[0][1..]])
    case Pair(key, value) => SkipPair(key, value, cols)
    case Struct(_, fields) => SkipFields(fields, cols)
    case _ => SkipField(node.body, cols)
  }

  function SkipPair(key: Node, value: Node, cols: Columns): (r: Outcome)
    requires |cols| == Leaves(key) + Leaves(value)
    ensures r.Read? ==> r.events == [] && Advanced(cols, r.rest)
    decreases Pair(key, value), 0
  {
    var n := Leaves(key);
    Beside(SkipField(key, cols[..n]), SkipField(value, cols[n..]))
  }

  function SkipFields(fields: seq<Node>, cols: Columns): (r: Outcome)
    requires |cols| == LeavesOf(fields)
    ensures r.Read? ==> r.events == [] && Advanced(cols, r.rest)
    decreases fields, 1
  {
    if fields == [] then Read([], [])
    else
      var n := Leaves(fields[0]);
      Beside(SkipField(fields[0], cols[..n]), SkipFields(fields[1..], cols[n..]))
  }

  /** One primitive: a triplet below the maximum definition level yields no call. */
  function ReadPrimitive(node: Node, cols: Columns): (r: Outcome)
    requires node.Primitive? && |cols| == 1
    ensures r.Read? ==> Advanced(cols, r.rest)
  {
    if cols[0] == [] then Failed
    else if cols[0][0].def_level < node.def_level then Read([], [cols[0][1..]])
    else if cols[0][0].value.None? then Failed
    else Read([AppendValue(cols[0][0].value.value)], [cols[0][1..]])
  }

  /** Read one instance of `node`. */
  function ReadField(node: Node, cols: Columns): (r: Outcome)
    requires |cols| == Leaves(node)
    ensures r.Read? ==> Advanced(cols, r.rest)
    decreases node, 2, 0
  {
    match node
    case Primitive(_, _, _, _) => ReadPrimitive(node, cols)
    case Optional(_, d, _, body) =>
      if CurrentLevels(body, cols).def > d then ReadField(body, cols)
      else Around([AppendNull], SkipField(body, cols), [])
    case Pair(key, value) => ReadPair(key, value, cols)
    case Struct(_, fields) => Around([StartStruct], ReadFields(fields, cols), [EndStruct])
    case _ =>
      if CurrentLevels(node.body, cols).def > node.def_level then Around([Start(node)], ReadItems(node, cols), [End(node)])
      else Around([Start(node)], SkipField(node.body, cols), [End(node)])
  }

  function ReadPair(key: Node, value: Node, cols: Columns): (r: Outcome)
    requires |cols| == Leaves(key) + Leaves(value)
    ensures r.Read? ==> Advanced(cols, r.rest)
    decreases Pair(key, value), 1, 0
  {
    var n := Leaves(key);
    Beside(Around([], ReadField(key, cols[..n]), [SeparateKeyValue]), ReadField(value, cols[n..]))
  }

  function ReadFields(fields: seq<Node>, cols: Columns): (r: Outcome)
    requires |cols| == LeavesOf(fields)
    ensures r.Read? ==> Advanced(cols, r.rest)
    decreases fields, 2, 0
  {
    if fields == [] then Read([], [])
    else
      var n := Leaves(fields[0]);
      Beside(Around([Announce(fields[0], false)], ReadField(fields[0], cols[..n]), []), ReadFields(fields[1..], cols[n..]))
  }

  /** The items of a list or map that has some. */
  function ReadItems(node: Node, cols: Columns): (r: Outcome)
    requires node.Repeated() && |cols| == Leaves(node)
    ensures r.Read? ==> Advanced(cols, r.rest)
    decreases node, 1, 0
  {
    var o := ReadField(node.body, cols);
    if o.Failed? then Failed else Around(o.events, ReadMore(node, o.rest), [])
  }

  /** The loop over the later items: they start at a higher repetition level. */
  function ReadMore(node: Node, cols: Columns): (r: Outcome)
    requires node.Repeated() && |cols| == Leaves(node)
    ensures r.Read? ==> r.rest == cols || Advanced(cols, r.rest)
    decreases node, 0, if cols == [] then 0 else |cols[0]|
  {
    if CurrentLevels(node.body, cols).rep > node.rep_level then
      var o := ReadField(node.body, cols);
      if o.Failed? then Failed else Around([Separate(node)] + o.events, ReadMore(node, o.rest), [])
    else Read([], cols)
  }

  /** One top-level field. */
  function ReadColumn(node: Node, cols: Columns): (r: Outcome)
    requires |cols| == Leaves(node)
    ensures r.Read? ==> Advanced(cols, r.rest)
  {
    if !node.Optional? then ReadField(node, cols)
    else if CurrentLevels(node, cols).def > 0 then ReadField(node, cols)
    else Around([AppendNull], SkipField(node, cols), [])
  }

  function ReadColumns(fields: seq<Node>, cols: Columns): (r: Outcome)
    requires |cols| == LeavesOf(fields)
    ensures r.Read? ==> Advanced(cols, r.rest)
  {
    if fields == [] then Read([], [])
    else
      var n := Leaves(fields[0]);
      Beside(Around([Announce(fields[0], true)], ReadColumn(fields[0], cols[..n]), []), ReadColumns(fields[1..], cols[n..]))
  }

  function ReadOne(fields: seq<Node>, cols: Columns): (r: Outcome)
    requires |cols| == LeavesOf(fields)
    ensures r.Read? ==> Advanced(cols, r.rest)
  {
    Around([StartRecord], ReadColumns(fields, cols), [EndRecord])
  }

  /** All the records of a row group. Each pass takes a triplet from every column, so it ends, and
      it ends only where the first field has no triplet left. */
  function ReadAll(fields: seq<Node>, cols: Columns): (r: Outcome)
    requires |cols| == LeavesOf(fields)
    ensures r.Read? ==> |r.rest| == |cols| && FirstLevels(fields, r.rest) == Levels(-1, -1)
    decreases if cols == [] then 0 else |cols[0]|
  {
    if FirstLevels(fields, cols).def < 0 then Read([], cols)
    else
      var o := ReadOne(fields, cols);
      if o.Failed? then Failed else Around(o.events, ReadAll(fields, o.rest), [])
  }

  // ----- The columns of a shredded value -----

  /** What follows an instance of a node at repetition level `rep` starts no deeper. */
  predicate Settled(cols: Columns, rep: nat) {
    forall i :: 0 <= i < |cols| && cols[i] != [] ==> cols[i][0].rep_level <= rep
  }

  /** Every column begins with a triplet at `rep` and at least at definition level `def`. */
  predicate Opens(cols: Columns, def: nat, rep: nat) {
    forall i :: 0 <= i < |cols| ==> cols[i] != [] && cols[i][0].rep_level == rep && cols[i][0].def_level >= def
  }

  lemma {:induction false} ShredOpens(node: Node, v: Value, rep: nat, d: nat, l: nat)
    requires Conforms(node, v) && Levelled(node, d, l)
    ensures Opens(Shred(node, v, rep), d, rep)
    decreases node, 1
  {
    match node
    case Primitive(_, _, _, _) =>
    case Optional(_, _, _, body) =>
      if v.Present? {
        ShredOpens(body, v.value, rep, d + 1, l);
      }
    case Pair(key, value) =>
      ShredOpens(key, v.key, rep, d, l);
      ShredOpens(value, v.value, rep, d, l);
    case Struct(_, fields) => ShredFieldsOpens(fields, v.fields, rep, d, l);
    case _ =>
      if v.items != [] {
        ShredOpens(node.body, v.items[0], rep, d + 1, l + 1);
      }
  }

  lemma {:induction false} ShredFieldsOpens(fields: seq<Node>, vs: seq<Value>, rep: nat, d: nat, l: nat)
    requires AllConform(fields, vs) && AllLevelled(fields, d, l)
    ensures Opens(ShredFields(fields, vs, rep), d, rep)
    decreases fields, 1
  {
    if fields != [] {
      ShredOpens(fields[0], vs[0], rep, d, l);
      ShredFieldsOpens(fields[1..], vs[1..], rep, d, l);
    }
  }

  lemma {:induction false} LeadLevels(node: Node, cols: Columns)
    requires |cols| == Leaves(node) && HasLead(node)
    ensures |cols| > 0
    ensures CurrentLevels(node, cols) ==
      if cols[0] == [] then Levels(-1, -1) else Levels(cols[0][0].def_level, cols[0][0].rep_level)
  {
    match node
    case Primitive(_, _, _, _) =>
    case Pair(key, _) => LeadLevels(key, cols[..Leaves(key)]);
    case Struct(_, fields) => LeadLevels(fields[0], cols[..Leaves(fields[0])]);
    case _ => LeadLevels(node.body, cols);
  }

  // ----- Skipping -----

  function Tails(cols: Columns): (r: Columns)
    requires forall i :: 0 <= i < |cols| ==> cols[i] != []
    ensures |r| == |cols|
  {
    seq(|cols|, i requires 0 <= i < |cols| => cols[i][1..])
  }

  /** On any column whose triplets have a value exactly at the maximum definition level, a primitive
      is read unless the column is exhausted: one triplet, and one call if it has a value. */
  lemma {:induction false} PrimitiveReads(node: Node, cols: Columns)
    requires node.Primitive? && |cols| == 1
    requires forall i :: 0 <= i < |cols[0]| ==>
      cols[0][i].def_level <= node.def_level && (cols[0][i].value.Some? <==> cols[0][i].def_level == node.def_level)
    ensures ReadField(node, cols) ==
      if cols[0] == [] then Failed
      else
        var t := cols[0][0];
        Read(if t.value.Some? then [AppendValue(t.value.value)] else [], [cols[0][1..]])
  {
  }

  /** Skipping takes exactly one triplet from every leaf. */
  lemma {:induction false} SkipTakesOne(node: Node, cols: Columns)
    requires |cols| == Leaves(node) && forall i :: 0 <= i < |cols| ==> cols[i] != []
    ensures SkipField(node, cols) == Read([], Tails(cols))
    decreases node
  {
    hide Advanced;
    match node
    case Primitive(_, _, _, _) =>
    case Pair(key, value) =>
      TailsSplit(cols, Leaves(key));
      SkipTakesOne(key, cols[..Leaves(key)]);
      SkipTakesOne(value, cols[Leaves(key)..]);
    case Struct(_, fields) => SkipFieldsTakesOne(fields, cols);
    case _ => SkipTakesOne(node.body, cols);
  }

  lemma {:induction false} TailsSplit(cols: Columns, n: nat)
    requires n <= |cols| && forall i :: 0 <= i < |cols| ==> cols[i] != []
    ensures Tails(cols[..n]) + Tails(cols[n..]) == Tails(cols)
  {
  }

  lemma {:induction false} SkipFieldsTakesOne(fields: seq<Node>, cols: Columns)
    requires |cols| == LeavesOf(fields) && forall i :: 0 <= i < |cols| ==> cols[i] != []
    ensures SkipFields(fields, cols) == Read([], Tails(cols))
    decreases fields
  {
    hide Tails, SkipField, Advanced;
    if fields == [] {
      assert Tails(cols) == [];
    } else {
      TailsSplit(cols, Leaves(fields[0]));
      SkipTakesOne(fields[0], cols[..Leaves(fields[0])]);
      SkipFieldsTakesOne(fields[1..], cols[Leaves(fields[0])..]);
    }
  }

  lemma {:induction false} SkipsBlank(node: Node, def: nat, rep: nat, rest: Columns)
    requires |rest| == Leaves(node)
    ensures SkipField(node, Zip(Blank(node, def, rep), rest)) == Read([], rest)
  {
    hide SkipField, Leaves;
    var cols := Zip(Blank(node, def, rep), rest);
    SkipTakesOne(node, cols);
    assert Tails(cols) == rest;
  }

  // ----- Columns side by side -----

  lemma {:induction false} ZipSplit(a: Columns, b: Columns, rest: Columns)
    requires |rest| == |a| + |b|
    ensures Zip(a + b, rest)[..|a|] == Zip(a, rest[..|a|])
    ensures Zip(a + b, rest)[|a|..] == Zip(b, rest[|a|..])
  {
  }

  lemma {:induction false} ZipAssociates(a: Columns, b: Columns, c: Columns)
    requires |a| == |b| == |c|
    ensures Zip(Zip(a, b), c) == Zip(a, Zip(b, c))
  {
    forall i | 0 <= i < |a| ensures Zip(Zip(a, b), c)[i] == Zip(a, Zip(b, c))[i] {
      Associate(a[i], b[i], c[i]);
    }
  }

  lemma {:induction false} ZipEmpties(rest: Columns)
    ensures Zip(Empties(|rest|), rest) == rest
  {
    forall i | 0 <= i < |rest| ensures Zip(Empties(|rest|), rest)[i] == rest[i] {
      assert Empties(|rest|)[i] == [];
    }
  }

  lemma {:induction false} OpensSettled(a: Columns, rest: Columns, def: nat, rep: nat)
    requires |a| == |rest| && Opens(a, def, rep)
    ensures Opens(Zip(a, rest), def, rep) && Settled(Zip(a, rest), rep)
  {
  }

  lemma {:induction false} SettledParts(rest: Columns, n: nat, rep: nat)
    requires n <= |rest| && Settled(rest, rep)
    ensures Settled(rest[..n], rep) && Settled(rest[n..], rep)
  {
  }

  // ----- Reading undoes shredding -----

  lemma {:induction false} LaterItemsSettled(node: Node, vs: seq<Value>, rest: Columns, d: nat, l: nat)
    requires EachConforms(node, vs) && Levelled(node, d, l + 1)
    requires |rest| == Leaves(node) && Settled(rest, l)
    ensures Settled(Zip(ShredItems(node, vs, l + 1, l + 1), rest), l + 1)
  {
    hide Leaves, Levelled, Conforms, Shred, Opens, Zip, Empties;
    if vs == [] {
      ZipEmpties(rest);
    } else {
      var first, later := Shred(node, vs[0], l + 1), ShredItems(node, vs[1..], l + 1, l + 1);
      ShredOpens(node, vs[0], l + 1, d, l + 1);
      ZipAssociates(first, later, rest);
      OpensSettled(first, Zip(later, rest), d, l + 1);
    }
  }

  /** Reading a shredded value spells that value, and takes its triplets and nothing more from
      every column. */
  lemma {:induction false} FieldReadsBack(node: Node, v: Value, rep: nat, rest: Columns, d: nat, l: nat)
    requires Conforms(node, v) && Levelled(node, d, l) && Led(node)
    requires |rest| == Leaves(node) && Settled(rest, l)
    ensures ReadField(node, Zip(Shred(node, v, rep), rest)) == Read(Spell(node, v), rest)
    decreases node, 2, 0
  {
    hide ReadFields, ReadItems, ReadMore, ShredFields, ShredItems, SpellFields, SpellItems, SpellMore, SkipField, Settled;
    match node
    case Primitive(_, _, _, _) =>
    case Optional(_, _, _, body) => OptionalReadsBack(node, v, rep, rest, d, l);
    case Pair(key, value) => PairReadsBack(node, key, value, v, rep, rest, d, l);
    case Struct(_, fields) => FieldsReadBack(fields, v.fields, rep, rest, d, l);
    case _ => RepeatedReadsBack(node, v, rep, rest, d, l);
  }

  lemma {:induction false} PairReadsBack(
    node: Node, key: Node, value: Node, v: Value, rep: nat, rest: Columns, d: nat, l: nat)
    requires node == Pair(key, value) && v.Entry? && Conforms(key, v.key) && Conforms(value, v.value)
    requires Levelled(key, d, l) && Levelled(value, d, l) && Led(key) && Led(value)
    requires |rest| == Leaves(key) + Leaves(value) && Settled(rest, l)
    ensures ReadPair(key, value, Zip(Shred(key, v.key, rep) + Shred(value, v.value, rep), rest))
      == Read(Spell(key, v.key) + [SeparateKeyValue] + Spell(value, v.value), rest)
    decreases node, 1, 0
  {
    hide Zip, Settled, Advanced, ReadField, Shred, Spell, Levelled, Led, Conforms, Leaves;
    var n := Leaves(key);
    ZipSplit(Shred(key, v.key, rep), Shred(value, v.value, rep), rest);
    SettledParts(rest, n, l);
    FieldReadsBack(key, v.key, rep, rest[..n], d, l);
    FieldReadsBack(value, v.value, rep, rest[n..], d, l);
    assert [] + Spell(key, v.key) == Spell(key, v.key);
  }

  lemma {:induction false} OptionalReadsBack(node: Node, v: Value, rep: nat, rest: Columns, d: nat, l: nat)
    requires node.Optional? && Conforms(node, v) && Levelled(node, d, l) && Led(node)
    requires |rest| == Leaves(node) && Settled(rest, l)
    ensures ReadField(node, Zip(Shred(node, v, rep), rest)) == Read(Spell(node, v), rest)
    decreases node, 1, 0
  {
    var cols := Zip(Shred(node, v, rep), rest);
    LeadLevels(node.body, cols);
    if v.Null? {
      SkipsBlank(node.body, d, rep, rest);
    } else {
      ShredOpens(node.body, v.value, rep, d + 1, l);
      FieldReadsBack(node.body, v.value, rep, rest, d + 1, l);
    }
  }

  lemma {:induction false} FieldsReadBack(fields: seq<Node>, vs: seq<Value>, rep: nat, rest: Columns, d: nat, l: nat)
    requires AllConform(fields, vs) && AllLevelled(fields, d, l) && AllLed(fields)
    requires |rest| == LeavesOf(fields) && Settled(rest, l)
    ensures ReadFields(fields, Zip(ShredFields(fields, vs, rep), rest)) == Read(SpellFields(fields, vs, false), rest)
    decreases fields, 2, 0
  {
    hide Zip, Shred, Spell, ReadField, Leaves, Levelled, Led, Conforms, Settled, Advanced;
    if fields == [] {
      assert rest == [];
    } else {
      var n := Leaves(fields[0]);
      ZipSplit(Shred(fields[0], vs[0], rep), ShredFields(fields[1..], vs[1..], rep), rest);
      SettledParts(rest, n, l);
      FieldReadsBack(fields[0], vs[0], rep, rest[..n], d, l);
      FieldsReadBack(fields[1..], vs[1..], rep, rest[n..], d, l);
    }
  }

  lemma {:induction false} RepeatedReadsBack(node: Node, v: Value, rep: nat, rest: Columns, d: nat, l: nat)
    requires node.Repeated() && Conforms(node, v) && Levelled(node, d, l) && Led(node)
    requires |rest| == Leaves(node) && Settled(rest, l)
    ensures ReadField(node, Zip(Shred(node, v, rep), rest)) == Read(Spell(node, v), rest)
    decreases node, 1, 0
  {
    var cols := Zip(Shred(node, v, rep), rest);
    LeadLevels(node.body, cols);
    if v.items == [] {
      SkipsBlank(node.body, d, rep, rest);
    } else {
      ItemsReadBack(node, v.items, rep, rest, d, l);
    }
  }

  lemma {:induction false} ItemsReadBack(node: Node, vs: seq<Value>, rep: nat, rest: Columns, d: nat, l: nat)
    requires node.Repeated() && vs != [] && EachConforms(node.body, vs) && Levelled(node, d, l) && Led(node)
    requires |rest| == Leaves(node) && Settled(rest, l)
    ensures var cols := Zip(ShredItems(node.body, vs, rep, l + 1), rest);
      && Opens(cols, d + 1, rep)
      && ReadItems(node, cols) == Read(SpellItems(node, vs), rest)
    decreases node, 0, |vs|
  {
    hide Zip, Shred, Spell, ReadField, Conforms, Settled, Advanced, Opens;
    var first, later := Shred(node.body, vs[0], rep), ShredItems(node.body, vs[1..], l + 1, l + 1);
    ZipAssociates(first, later, rest);
    ShredOpens(node.body, vs[0], rep, d + 1, l + 1);
    OpensSettled(first, Zip(later, rest), d + 1, rep);
    LaterItemsSettled(node.body, vs[1..], rest, d + 1, l);
    FieldReadsBack(node.body, vs[0], rep, Zip(later, rest), d + 1, l + 1);
    MoreReadBack(node, vs[1..], rest, d, l);
  }

  lemma {:induction false} MoreReadBack(node: Node, vs: seq<Value>, rest: Columns, d: nat, l: nat)
    requires node.Repeated() && EachConforms(node.body, vs) && Levelled(node, d, l) && Led(node)
    requires |rest| == Leaves(node) && Settled(rest, l)
    ensures ReadMore(node, Zip(ShredItems(node.body, vs, l + 1, l + 1), rest)) == Read(SpellMore(node, vs), rest)
    decreases node, 0, |vs|
  {
    hide Zip, Shred, Spell, ReadField, Conforms, Advanced;
    var cols := Zip(ShredItems(node.body, vs, l + 1, l + 1), rest);
    LeadLevels(node.body, cols);
    if vs == [] {
      ZipEmpties(rest);
    } else {
      var first, later := Shred(node.body, vs[0], l + 1), ShredItems(node.body, vs[1..], l + 1, l + 1);
      ZipAssociates(first, later, rest);
      ShredOpens(node.body, vs[0], l + 1, d + 1, l + 1);
      OpensSettled(first, Zip(later, rest), d + 1, l + 1);
      LaterItemsSettled(node.body, vs[1..], rest, d + 1, l);
      FieldReadsBack(node.body, vs[0], l + 1, Zip(later, rest), d + 1, l + 1);
      MoreReadBack(node, vs[1..], rest, d, l);
    }
  }

  lemma {:induction false} ColumnIsField(node: Node, cols: Columns, l: nat)
    requires |cols| == Leaves(node) && Levelled(node, 0, l)
    ensures ReadColumn(node, cols) == ReadField(node, cols)
  {
  }

  lemma {:induction false} ColumnsReadBack(fields: seq<Node>, vs: seq<Value>, rest: Columns)
    requires AllConform(fields, vs) && AllLevelled(fields, 0, 0) && AllLed(fields)
    requires |rest| == LeavesOf(fields) && Settled(rest, 0)
    ensures ReadColumns(fields, Zip(ShredFields(fields, vs, 0), rest)) == Read(SpellFields(fields, vs, true), rest)
    decreases fields
  {
    hide Zip, Shred, Spell, ReadField, ReadColumn, Leaves, Levelled, Led, Conforms, Settled, Advanced;
    if fields == [] {
      assert rest == [];
    } else {
      var n := Leaves(fields[0]);
      ZipSplit(Shred(fields[0], vs[0], 0), ShredFields(fields[1..], vs[1..], 0), rest);
      SettledParts(rest, n, 0);
      FieldReadsBack(fields[0], vs[0], 0, rest[..n], 0, 0);
      ColumnIsField(fields[0], Zip(ShredFields(fields, vs, 0), rest)[..n], 0);
      ColumnsReadBack(fields[1..], vs[1..], rest[n..]);
    }
  }

  /** The first top-level field ends in a column, and so does whatever is optional or repeated. */
  predicate Readable(fields: seq<Node>) {
    fields != [] && HasLead(fields[0]) && AllLed(fields)
  }

  lemma {:induction false} RecordsSettled(fields: seq<Node>, records: seq<Value>)
    requires AllRecords(fields, records) && AllLevelled(fields, 0, 0)
    ensures Settled(ShredRecords(fields, records), 0)
  {
    hide Zip, ShredFields, Opens, AllConform;
    if records != [] {
      ShredFieldsOpens(fields, records[0].fields, 0, 0, 0);
      OpensSettled(ShredFields(fields, records[0].fields, 0), ShredRecords(fields, records[1..]), 0, 0);
    }
  }

  /** Assembly undoes shredding: reading all the columns of any list of records makes exactly the
      calls that spell those records, in order, and leaves every column exhausted. */
  lemma {:induction false} RecordsReadBack(fields: seq<Node>, records: seq<Value>)
    requires AllRecords(fields, records) && AllLevelled(fields, 0, 0) && Readable(fields)
    ensures ReadAll(fields, ShredRecords(fields, records)) == Read(SpellRecords(fields, records), Empties(LeavesOf(fields)))
  {
    hide Zip, ShredFields, ReadColumns, SpellFields, AllConform, Settled, Advanced, Leaves, HasLead, AllLed,
      AllLevelled, Levelled;
    var cols := ShredRecords(fields, records);
    FirstHasLevels(fields, cols);
    if records != [] {
      var rest := ShredRecords(fields, records[1..]);
      var first := ShredFields(fields, records[0].fields, 0);
      ShredFieldsOpens(fields, records[0].fields, 0, 0, 0);
      OpensSettled(first, rest, 0, 0);
      RecordsSettled(fields, records[1..]);
      ColumnsReadBack(fields, records[0].fields, rest);
      RecordsReadBack(fields, records[1..]);
    }
  }

  lemma {:induction false} FirstHasLevels(fields: seq<Node>, cols: Columns)
    requires fields != [] && HasLead(fields[0]) && |cols| == LeavesOf(fields)
    ensures |cols| > 0
    ensures FirstLevels(fields, cols) ==
      if cols[0] == [] then Levels(-1, -1) else Levels(cols[0][0].def_level, cols[0][0].rep_level)
  {
    LeadLevels(fields[0], cols[..Leaves(fields[0])]);
  }

  /** Whatever the columns hold, readers that do not fail have taken every triplet of the first leaf. */
  lemma {:induction false} ReadAllExhausts(fields: seq<Node>, cols: Columns)
    requires fields != [] && HasLead(fields[0]) && |cols| == LeavesOf(fields)
    requires ReadAll(fields, cols).Read?
    ensures |cols| > 0 && ReadAll(fields, cols).rest[0] == []
  {
    FirstHasLevels(fields, ReadAll(fields, cols).rest);
  }

  // ----- Lists of lists with the levels of one -----

  /** The loop ends where the next item of the list would not be a later one. */
  lemma {:induction false} MoreStops(node: Node, cols: Columns)
    requires node.Repeated() && |cols| == Leaves(node) && ReadMore(node, cols).Read?
    ensures CurrentLevels(node.body, ReadMore(node, cols).rest).rep <= node.rep_level
    decreases if cols == [] then 0 else |cols[0]|
  {
    if CurrentLevels(node.body, cols).rep > node.rep_level {
      MoreStops(node, ReadField(node.body, cols).rest);
    }
  }

  /** A list that directly contains a list with the same levels adds a layer: whatever the columns,
      it reads as a list of the one inner list, unless that is empty. */
  lemma {:induction false} DoubledListReads(outer: Node, cols: Columns)
    requires outer.List? && outer.body.List? && |cols| == Leaves(outer)
    requires outer.def_level == outer.body.def_level && outer.rep_level == outer.body.rep_level
    ensures var inner := ReadField(outer.body, cols);
      ReadField(outer, cols) ==
        if CurrentLevels(outer.body, cols).def > outer.def_level then Around([StartList], inner, [EndList]) else inner
  {
    var body := outer.body;
    if CurrentLevels(body, cols).def > outer.def_level {
      var inner, items := ReadField(body, cols), ReadItems(body, cols);
      assert CurrentLevels(body, cols) == CurrentLevels(body.body, cols);
      assert inner == Around([StartList], items, [EndList]);
      if items.Read? {
        MoreStops(body, ReadField(body.body, cols).rest);
        assert ReadMore(outer, inner.rest) == Read([], inner.rest);
        assert inner.events + [] + [] == inner.events;
      }
    }
  }

  /** So what is written on a list of the legacy form is spelled inside one more list: it comes back
      as written if and only if it is empty. */
  lemma {:induction false} DoubledListSpells(outer: Node, v: Value, rep: nat, rest: Columns, d: nat, l: nat)
    requires outer.List? && outer.body.List? && outer.def_level == d && outer.rep_level == l
    requires Conforms(outer.body, v) && Levelled(outer.body, d, l) && Led(outer.body)
    requires |rest| == Leaves(outer) && Settled(rest, l)
    ensures var right := Spell(outer.body, v);
      && ReadField(outer, Zip(Shred(outer.body, v, rep), rest))
        == Read(if v.items == [] then right else [StartList] + right + [EndList], rest)
      && (ReadField(outer, Zip(Shred(outer.body, v, rep), rest)) == Read(right, rest) <==> v.items == [])
  {
    hide Spell, ReadField, ReadItems, Zip, Settled, Advanced;
    var body := outer.body;
    var cols := Zip(Shred(body, v, rep), rest);
    FieldReadsBack(body, v, rep, rest, d, l);
    DoubledListReads(outer, cols);
    ListLevels(body, v, rep, rest, d, l);
    assert |[StartList] + Spell(body, v) + [EndList]| == |Spell(body, v)| + 2;
  }

  lemma {:induction false} ListLevels(node: Node, v: Value, rep: nat, rest: Columns, d: nat, l: nat)
    requires node.List? && Conforms(node, v) && Levelled(node, d, l) && Led(node) && |rest| == Leaves(node)
    ensures CurrentLevels(node, Zip(Shred(node, v, rep), rest)).def > d <==> v.items != []
  {
    LeadLevels(node.body, Zip(Shred(node, v, rep), rest));
    if v.items != [] {
      ShredOpens(node.body, v.items[0], rep, d + 1, l + 1);
    }
  }
}
