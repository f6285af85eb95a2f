/**
Nested records and their columns: the tree that the record readers follow, the values that
fit it, the columns of (definition level, repetition level, value) triplets they are shredded
into, and the calls a consumer gets when they are spelled out.
 */
module Records {
  import opened Options
  import opened Bits

  /** The bits of one primitive value. */
  type Atom = BitString

  /** The reader's schema. A map's repeated part is a pair. `def_level` and `rep_level` of an
      inner node are the levels at which the node itself is not (yet) present or repeated. */
  datatype Node =
    | Primitive(name: string, def_level: nat, rep_level: nat, column_index: nat)
    | Optional(name: string, def_level: nat, rep_level: nat, body: Node)
    | List(name: string, def_level: nat, rep_level: nat, body: Node)
    | Map(name: string, def_level: nat, rep_level: nat, body: Node)
    | Pair(key: Node, value: Node)
    | Struct(name: string, fields: seq<Node>)
  {
    predicate Repeated() {
      List? || Map?
    }

    function Name(): string {
      if Pair? then "" else name
    }
  }

  datatype Value =
    | Atomic(atom: Atom)
    | Null
    | Present(value: Value)
    | Items(items: seq<Value>)
    | Entry(key: Value, value: Value)
    | Record(fields: seq<Value>)

  datatype Triplet = Triplet(def_level: nat, rep_level: nat, value: Option<Atom>)

  type Columns = seq<seq<Triplet>>

  /** The number of columns below a node. */
  function Leaves(node: Node): nat
  {
    match node
    case Primitive(_, _, _, _) => 1
    case Pair(key, value) => Leaves(key) + Leaves(value)
    case Struct(_, fields) => LeavesOf(fields)
    case _ => Leaves(node.body)
  }

  function LeavesOf(fields: seq<Node>): nat {
    if fields == [] then 0 else Leaves(fields[0]) + LeavesOf(fields[1..])
  }

  /** The primitives below a node, in the order of their columns. */
  function Primitives(node: Node): (r: seq<Node>)
    ensures |r| == Leaves(node) && forall i :: 0 <= i < |r| ==> r[i].Primitive?
  {
    match node
    case Primitive(_, _, _, _) => [node]
    case Pair(key, value) => Primitives(key) + Primitives(value)
    case Struct(_, fields) => PrimitivesOf(fields)
    case _ => Primitives(node.body)
  }

  function PrimitivesOf(fields: seq<Node>): (r: seq<Node>)
    ensures |r| == LeavesOf(fields) && forall i :: 0 <= i < |r| ==> r[i].Primitive?
  {
    if fields == [] then [] else Primitives(fields[0]) + PrimitivesOf(fields[1..])
  }

  /** The levels count the optional and repeated ancestors: `def` of either kind, `rep` repeated. */
  predicate Levelled(node: Node, def: nat, rep: nat) {
    match node
    case Primitive(_, d, r, _) => d == def && r == rep
    case Optional(_, d, r, body) =>
      d == def && r == rep && !body.Optional? && !body.Pair? && Levelled(body, def + 1, rep)
    case List(_, d, r, body) => d == def && r == rep && !body.Pair? && Levelled(body, def + 1, rep + 1)
    case Map(_, d, r, body) => d == def && r == rep && body.Pair? && Levelled(body, def + 1, rep + 1)
    case Pair(key, value) => !key.Pair? && !value.Pair? && Levelled(key, def, rep) && Levelled(value, def, rep)
    case Struct(_, fields) => AllLevelled(fields, def, rep)
  }

  predicate AllLevelled(fields: seq<Node>, def: nat, rep: nat) {
    fields == [] ||
    (!fields[0].Pair? && Levelled(fields[0], def, rep) && AllLevelled(fields[1..], def, rep))
  }

  /** A node has a lead when its first child, first grandchild, ... ends in a column. */
  predicate HasLead(node: Node) {
    match node
    case Primitive(_, _, _, _) => true
    case Pair(key, _) => HasLead(key)
    case Struct(_, fields) => fields != [] && HasLead(fields[0])
    case _ => HasLead(node.body)
  }

  lemma {:induction false} LeadIsColumn(node: Node)
    requires HasLead(node)
    ensures Leaves(node) > 0
  {
    match node
    case Primitive(_, _, _, _) =>
    case Pair(key, _) => LeadIsColumn(key);
    case Struct(_, fields) => LeadIsColumn(fields[0]);
    case _ => LeadIsColumn(node.body);
  }

  /** Every optional or repeated node has a lead, whose levels tell it apart. Schemas without
      empty structs are like that. */
  predicate Led(node: Node) {
    match node
    case Primitive(_, _, _, _) => true
    case Pair(key, value) => Led(key) && Led(value)
    case Struct(_, fields) => AllLed(fields)
    case _ => HasLead(node.body) && Led(node.body)
  }

  predicate AllLed(fields: seq<Node>) {
    fields == [] || (Led(fields[0]) && AllLed(fields[1..]))
  }

  predicate Conforms(node: Node, v: Value)
    decreases node, 0, 0
  {
    match node
    case Primitive(_, _, _, _) => v.Atomic?
    case Optional(_, _, _, body) => v.Null? || (v.Present? && Conforms(body, v.value))
    case Pair(key, value) => v.Entry? && Conforms(key, v.key) && Conforms(value, v.value)
    case Struct(_, fields) => v.Record? && AllConform(fields, v.fields)
    case _ => v.Items? && EachConforms(node.body, v.items)
  }

  predicate AllConform(fields: seq<Node>, vs: seq<Value>)
    decreases fields, 0, 0
  {
    |vs| == |fields| && (fields == [] || (Conforms(fields[0], vs[0]) && AllConform(fields[1..], vs[1..])))
  }

  predicate EachConforms(node: Node, vs: seq<Value>)
    decreases node, 1, |vs|
  {
    vs == [] || (Conforms(node, vs[0]) && EachConforms(node, vs[1..]))
  }

  // ----- Columns side by side -----

  function Empties(n: nat): (r: Columns)
    ensures |r| == n
  {
    seq(n, _ => [])
  }

  /** Append each column of `b` to the same column of `a`. */
  function Zip(a: Columns, b: Columns): (r: Columns)
    requires |a| == |b|
    ensures |r| == |a|
  {
    seq(|a|, i requires 0 <= i < |a| => a[i] + b[i])
  }

  // ----- Shredding -----

  /** One triplet without a value in every column below `node`. */
  function Blank(node: Node, def: nat, rep: nat): (r: Columns)
    ensures |r| == Leaves(node)
  {
    seq(Leaves(node), _ => [Triplet(def, rep, None)])
  }

  /** The columns of one value; its first triplets get repetition level `rep`. */
  function Shred(node: Node, v: Value, rep: nat): (r: Columns)
    requires Conforms(node, v)
    ensures |r| == Leaves(node)
    decreases node, 1, 0
  {
    match node
    case Primitive(_, d, _, _) => [[Triplet(d, rep, Some(v.atom))]]
    case Optional(_, d, _, body) => if v.Null? then Blank(body, d, rep) else Shred(body, v.value, rep)
    case Pair(key, value) => Shred(key, v.key, rep) + Shred(value, v.value, rep)
    case Struct(_, fields) => ShredFields(fields, v.fields, rep)
    case _ =>
      if v.items == [] then Blank(node.body, node.def_level, rep)
      else ShredItems(node.body, v.items, rep, node.rep_level + 1)
  }

  function ShredFields(fields: seq<Node>, vs: seq<Value>, rep: nat): (r: Columns)
    requires AllConform(fields, vs)
    ensures |r| == LeavesOf(fields)
    decreases fields, 1, 0
  {
    if fields == [] then [] else Shred(fields[0], vs[0], rep) + ShredFields(fields[1..], vs[1..], rep)
  }

  /** Values one after another: the first starts at `first`, each later one at `next`. */
  function ShredItems(node: Node, vs: seq<Value>, first: nat, next: nat): (r: Columns)
    requires EachConforms(node, vs)
    ensures |r| == Leaves(node)
    decreases node, 2, |vs|
  {
    if vs == [] then Empties(Leaves(node))
    else Zip(Shred(node, vs[0], first), ShredItems(node, vs[1..], next, next))
  }

  // ----- Spelling -----

  /** The calls of a record consumer. */
  datatype Event =
    | StartRecord | StartColumn(name: string) | EndRecord
    | StartStruct | StartField(name: string) | EndStruct
    | StartList | SeparateListValues | EndList
    | StartMap | SeparateKeyValue | SeparateMapValues | EndMap
    | AppendNull | AppendValue(atom: Atom)

  function Start(node: Node): Event {
    if node.Map? then StartMap else StartList
  }

  function Separate(node: Node): Event {
    if node.Map? then SeparateMapValues else SeparateListValues
  }

  function End(node: Node): Event {
    if node.Map? then EndMap else EndList
  }

  /** The calls that spell one value out. */
  function Spell(node: Node, v: Value): seq<Event>
    requires Conforms(node, v)
    decreases node, 1, 0
  {
    match node
    case Primitive(_, _, _, _) => [AppendValue(v.atom)]
    case Optional(_, _, _, body) => if v.Null? then [AppendNull] else Spell(body, v.value)
    case Pair(key, value) => Spell(key, v.key) + [SeparateKeyValue] + Spell(value, v.value)
    case Struct(_, fields) => [StartStruct] + SpellFields(fields, v.fields, false) + [EndStruct]
    case _ => [Start(node)] + SpellItems(node, v.items) + [End(node)]
  }

  function SpellItems(node: Node, vs: seq<Value>): seq<Event>
    requires node.Repeated() && EachConforms(node.body, vs)
    decreases node, 0, |vs|
  {
    if vs == [] then [] else Spell(node.body, vs[0]) + SpellMore(node, vs[1..])
  }

  /** A top-level field is announced as a column. */
  function Announce(node: Node, top: bool): Event {
    if top then StartColumn(node.Name()) else StartField(node.Name())
  }

  function SpellFields(fields: seq<Node>, vs: seq<Value>, top: bool): seq<Event>
    requires AllConform(fields, vs)
    decreases fields, 1, 0
  {
    if fields == [] then []
    else [Announce(fields[0], top)] + Spell(fields[0], vs[0]) + SpellFields(fields[1..], vs[1..], top)
  }

  /** The later items of a list or map, each after a separator. */
  function SpellMore(node: Node, vs: seq<Value>): seq<Event>
    requires node.Repeated() && EachConforms(node.body, vs)
    decreases node, 0, |vs|
  {
    if vs == [] then []
    else [Separate(node)] + Spell(node.body, vs[0]) + SpellMore(node, vs[1..])
  }

  predicate AllRecords(fields: seq<Node>, records: seq<Value>) {
    forall i :: 0 <= i < |records| ==> records[i].Record? && AllConform(fields, records[i].fields)
  }

  function SpellRecords(fields: seq<Node>, records: seq<Value>): seq<Event>
    requires AllRecords(fields, records)
  {
    if records == [] then []
    else [StartRecord] + SpellFields(fields, records[0].fields, true) + [EndRecord] + SpellRecords(fields, records[1..])
  }

  /** The columns of a row group: every record starts at repetition level 0. */
  function ShredRecords(fields: seq<Node>, records: seq<Value>): (r: Columns)
    requires AllRecords(fields, records)
    ensures |r| == LeavesOf(fields)
  {
    if records == [] then Empties(LeavesOf(fields))
    else Zip(ShredFields(fields, records[0].fields, 0), ShredRecords(fields, records[1..]))
  }

  // ----- Rows -----

  /** The number of triplets that start a row. */
  function Rows(ts: seq<Triplet>): nat {
    if ts == [] then 0 else Rows(ts[..|ts| - 1]) + (if ts[|ts| - 1].rep_level == 0 then 1 else 0)
  }

  lemma {:induction false} RowsBoth(a: seq<Triplet>, b: seq<Triplet>)
    ensures Rows(a + b) == Rows(a) + Rows(b)
    decreases |b|
  {
    if b == [] {
      assert a + b == a;
    } else {
      assert (a + b)[..|a + b| - 1] == a + b[..|b| - 1];
      RowsBoth(a, b[..|b| - 1]);
    }
  }

  /** Every column has `n` rows. */
  predicate EachHasRows(cols: Columns, n: nat) {
    forall i :: 0 <= i < |cols| ==> Rows(cols[i]) == n
  }

  lemma {:induction false} RowsOfZip(a: Columns, b: Columns, m: nat, n: nat)
    requires |a| == |b| && EachHasRows(a, m) && EachHasRows(b, n)
    ensures EachHasRows(Zip(a, b), m + n)
  {
    forall i | 0 <= i < |a| ensures Rows(Zip(a, b)[i]) == m + n {
      RowsBoth(a[i], b[i]);
    }
  }

  /** A value starts a row in every column if it starts one at all. */
  lemma {:induction false} RowsOfValue(node: Node, v: Value, rep: nat)
    requires Conforms(node, v)
    ensures EachHasRows(Shred(node, v, rep), if rep == 0 then 1 else 0)
    decreases node, 1, 0
  {
    hide ShredFields, ShredItems, Leaves, LeavesOf;
    match node
    case Primitive(_, d, _, _) => OneRow(d, rep, Some(v.atom));
    case Optional(_, d, _, body) => if v.Null? { OneRow(d, rep, None); } else { RowsOfValue(body, v.value, rep); }
    case Pair(key, value) =>
      RowsOfValue(key, v.key, rep);
      RowsOfValue(value, v.value, rep);
    case Struct(_, fields) => RowsOfFields(fields, v.fields, rep);
    case _ =>
      if v.items == [] {
        OneRow(node.def_level, rep, None);
      } else {
        RowsOfItems(node.body, v.items, rep, node.rep_level + 1);
      }
  }

  lemma {:induction false} OneRow(def: nat, rep: nat, value: Option<Atom>)
    ensures Rows([Triplet(def, rep, value)]) == if rep == 0 then 1 else 0
  {
    assert [Triplet(def, rep, value)][..0] == [];
  }

  lemma {:induction false} RowsOfFields(fields: seq<Node>, vs: seq<Value>, rep: nat)
    requires AllConform(fields, vs)
    ensures EachHasRows(ShredFields(fields, vs, rep), if rep == 0 then 1 else 0)
    decreases fields, 1, 0
  {
    hide Shred, Rows;
    if fields != [] {
      RowsOfValue(fields[0], vs[0], rep);
      RowsOfFields(fields[1..], vs[1..], rep);
    }
  }

  lemma {:induction false} RowsOfItems(node: Node, vs: seq<Value>, first: nat, next: nat)
    requires EachConforms(node, vs) && next > 0
    ensures EachHasRows(ShredItems(node, vs, first, next), if vs != [] && first == 0 then 1 else 0)
    decreases node, 2, |vs|
  {
    hide Shred, Zip;
    if vs != [] {
      RowsOfValue(node, vs[0], first);
      RowsOfItems(node, vs[1..], next, next);
      RowsOfZip(Shred(node, vs[0], first), ShredItems(node, vs[1..], next, next), if first == 0 then 1 else 0, 0);
    }
  }

  /** Every column of a row group has as many rows as there are records. */
  lemma {:induction false} RowsOfRecords(fields: seq<Node>, records: seq<Value>)
    requires AllRecords(fields, records)
    ensures EachHasRows(ShredRecords(fields, records), |records|)
  {
    hide Zip, ShredFields;
    if records != [] {
      RowsOfFields(fields, records[0].fields, 0);
      RowsOfRecords(fields, records[1..]);
      RowsOfZip(ShredFields(fields, records[0].fields, 0), ShredRecords(fields, records[1..]), 1, |records| - 1);
    }
  }
}
