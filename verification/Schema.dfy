/**
Schemas: the writer's tree, its flat preorder form in the file metadata, the raw tree that a
reader recovers from it, and the logical tree that the record readers follow.
 */
module Schemas {
  import opened Options
  import opened Formats
  import R = Records

  /** An element of the flat schema; fields that are not set are `None`. */
  datatype SchemaElement = SchemaElement(
    name: string, repetition: Option<Repetition>, num_children: Option<int>,
    converted_type: Option<ConvertedType>, leaf: Option<PhysicalType>)
  {
    /** A repetition type that is not set reads as the first one. */
    function RepetitionType(): Repetition {
      if repetition.Some? then repetition.value else REQUIRED
    }
  }

  /** The tree that a writer is configured with. */
  datatype WriterNode =
    | PrimitiveNode(
        name: string, optional: bool, physical: PhysicalType, type_length: nat, encoding: Encoding, compression: CompressionCodec)
    | ListNode(name: string, optional: bool, element: WriterNode)
    | MapNode(name: string, optional: bool, key: WriterNode, value: WriterNode)
    | StructNode(name: string, optional: bool, fields: seq<WriterNode>)

  // ----- Trees of elements -----

  /** The tree shape recovered from the flat schema. */
  datatype Shape = Shape(info: SchemaElement, children: seq<Shape>)

  /** The flat schema is the tree in preorder. */
  function Preorder(s: Shape): seq<SchemaElement> {
    [s.info] + PreorderAll(s.children)
  }

  function PreorderAll(children: seq<Shape>): seq<SchemaElement> {
    if children == [] then [] else Preorder(children[0]) + PreorderAll(children[1..])
  }

  /** Every group tells how many children it has, and what does not tell has none. */
  predicate Counted(s: Shape) {
    (if s.info.num_children.None? then s.children == [] else s.info.num_children.value == |s.children|)
    && AllCounted(s.children)
  }

  predicate AllCounted(children: seq<Shape>) {
    children == [] || (Counted(children[0]) && AllCounted(children[1..]))
  }

  /** A shape and the elements after it. */
  datatype Parsed = Parsed(shape: Shape, rest: seq<SchemaElement>) | Corrupted

  datatype ParsedAll = ParsedAll(shapes: seq<Shape>, rest: seq<SchemaElement>) | AllCorrupted

  function Parse(flat: seq<SchemaElement>): (r: Parsed)
    ensures r.Parsed? ==> |r.rest| < |flat|
    decreases |flat|, 0
  {
    if flat == [] then Corrupted
    else if flat[0].num_children.None? then Parsed(Shape(flat[0], []), flat[1..])
    else if flat[0].num_children.value < 0 then Corrupted
    else
      var c := ParseAll(flat[0].num_children.value, flat[1..]);
      if c.AllCorrupted? then Corrupted else Parsed(Shape(flat[0], c.shapes), c.rest)
  }

  function ParseAll(n: nat, flat: seq<SchemaElement>): (r: ParsedAll)
    ensures r.ParsedAll? ==> |r.shapes| == n && |r.rest| <= |flat|
    decreases |flat|, 1, n
  {
    if n == 0 then ParsedAll([], flat)
    else
      var first := Parse(flat);
      if first.Corrupted? then AllCorrupted
      else
        var others := ParseAll(n - 1, first.rest);
        if others.AllCorrupted? then AllCorrupted else ParsedAll([first.shape] + others.shapes, others.rest)
  }

  /** Parsing a flattened tree gives the tree back and stops right behind it. */
  lemma {:induction false} ParseOfPreorder(s: Shape, rest: seq<SchemaElement>)
    requires Counted(s)
    ensures Parse(Preorder(s) + rest) == Parsed(s, rest)
    decreases s
  {
    var flat := Preorder(s) + rest;
    assert flat[0] == s.info && flat[1..] == PreorderAll(s.children) + rest;
    if s.info.num_children.None? {
      assert PreorderAll(s.children) + rest == rest;
    } else {
      ParseAllOfPreorder(s.children, rest);
    }
  }

  lemma {:induction false} ParseAllOfPreorder(children: seq<Shape>, rest: seq<SchemaElement>)
    requires AllCounted(children)
    ensures ParseAll(|children|, PreorderAll(children) + rest) == ParsedAll(children, rest)
    decreases children
  {
    hide Counted, Preorder;
    if children == [] {
      assert PreorderAll(children) + rest == rest;
    } else {
      var first, later := Preorder(children[0]), PreorderAll(children[1..]);
      assert first + later + rest == first + (later + rest);
      ParseOfPreorder(children[0], later + rest);
      ParseAllOfPreorder(children[1..], rest);
      assert children == [children[0]] + children[1..];
    }
  }

  /** What parses is a flattened tree. */
  lemma {:induction false} PreorderOfParse(flat: seq<SchemaElement>)
    requires Parse(flat).Parsed?
    ensures Counted(Parse(flat).shape) && flat == Preorder(Parse(flat).shape) + Parse(flat).rest
    decreases |flat|, 0
  {
    if flat[0].num_children.Some? {
      PreorderOfParseAll(flat[0].num_children.value, flat[1..]);
      var c := ParseAll(flat[0].num_children.value, flat[1..]);
      assert [flat[0]] + PreorderAll(c.shapes) + c.rest == [flat[0]] + (PreorderAll(c.shapes) + c.rest);
    }
    assert flat == [flat[0]] + flat[1..];
  }

  lemma {:induction false} PreorderOfParseAll(n: nat, flat: seq<SchemaElement>)
    requires ParseAll(n, flat).ParsedAll?
    ensures AllCounted(ParseAll(n, flat).shapes)
    ensures flat == PreorderAll(ParseAll(n, flat).shapes) + ParseAll(n, flat).rest
    decreases |flat|, 1, n
  {
    hide Counted, Preorder, Parse;
    var c := ParseAll(n, flat);
    if n > 0 {
      var first := Parse(flat);
      var others := ParseAll(n - 1, first.rest);
      PreorderOfParse(flat);
      PreorderOfParseAll(n - 1, first.rest);
      assert c.shapes[0] == first.shape && c.shapes[1..] == others.shapes;
      var a, b := Preorder(first.shape), PreorderAll(others.shapes);
      assert a + b + others.rest == a + (b + others.rest);
    } else {
      assert PreorderAll(c.shapes) + c.rest == c.rest;
    }
  }

  // ----- The writer's schema -----

  function RepetitionOf(optional: bool): Option<Repetition> {
    Some(if optional then OPTIONAL else REQUIRED)
  }

  function Group(name: string, repetition: Option<Repetition>, n: nat, converted: Option<ConvertedType>): SchemaElement {
    SchemaElement(name, repetition, Some(n), converted, None)
  }

  /** The tree of elements that stands for a writer's node. Elements, keys and values get fixed
      names, and the repeated level of a list or map becomes a group of its own. */
  function ShapeOf(node: WriterNode, name: string): Shape {
    match node
    case PrimitiveNode(_, optional, physical, _, _, _) =>
      Shape(SchemaElement(name, RepetitionOf(optional), None, None, Some(physical)), [])
    case ListNode(_, optional, element) =>
      Shape(Group(name, RepetitionOf(optional), 1, Some(LIST)),
        [Shape(Group("list", Some(REPEATED), 1, None), [ShapeOf(element, "element")])])
    case MapNode(_, optional, key, value) =>
      Shape(Group(name, RepetitionOf(optional), 1, Some(MAP)),
        [Shape(Group("key_value", Some(REPEATED), 2, None), [ShapeOf(key, "key"), ShapeOf(value, "value")])])
    case StructNode(_, optional, fields) =>
      Shape(Group(name, RepetitionOf(optional), |fields|, None), ShapesOf(fields))
  }

  function ShapesOf(fields: seq<WriterNode>): (r: seq<Shape>)
    ensures |r| == |fields|
  {
    if fields == [] then [] else [ShapeOf(fields[0], fields[0].name)] + ShapesOf(fields[1..])
  }

  function RootShape(fields: seq<WriterNode>): Shape {
    Shape(Group("schema", None, |fields|, None), ShapesOf(fields))
  }

  lemma {:induction false} ShapeOfIsCounted(node: WriterNode, name: string)
    ensures Counted(ShapeOf(node, name))
  {
    match node
    case PrimitiveNode(_, _, _, _, _, _) =>
    case ListNode(_, _, element) =>
      ShapeOfIsCounted(element, "element");
      OneCounted(ShapeOf(element, "element"));
      OneCounted(Shape(Group("list", Some(REPEATED), 1, None), [ShapeOf(element, "element")]));
    case MapNode(_, _, key, value) =>
      var k, v := ShapeOf(key, "key"), ShapeOf(value, "value");
      ShapeOfIsCounted(key, "key");
      ShapeOfIsCounted(value, "value");
      OneCounted(v);
      assert [k, v][1..] == [v];
      OneCounted(Shape(Group("key_value", Some(REPEATED), 2, None), [k, v]));
    case StructNode(_, _, fields) => ShapesOfAreCounted(fields);
  }

  lemma {:induction false} OneCounted(s: Shape)
    requires Counted(s)
    ensures AllCounted([s])
  {
    assert [s][1..] == [];
  }

  lemma {:induction false} ShapesOfAreCounted(fields: seq<WriterNode>)
    ensures AllCounted(ShapesOf(fields))
  {
    if fields != [] {
      ShapeOfIsCounted(fields[0], fields[0].name);
      ShapesOfAreCounted(fields[1..]);
    }
  }

  /** The maxima and the path of a column. */
  datatype Column = Column(def_level: nat, rep_level: nat, path: seq<string>)

  /** The levels that the column writers are made with, in order. */
  function WriterLevels(node: WriterNode, def: nat, rep: nat): seq<(nat, nat)> {
    var own := def + (if node.optional then 1 else 0);
    match node
    case PrimitiveNode(_, _, _, _, _, _) => [(own, rep)]
    case ListNode(_, _, element) => WriterLevels(element, own + 1, rep + 1)
    case MapNode(_, _, key, value) => WriterLevels(key, own + 1, rep + 1) + WriterLevels(value, own + 1, rep + 1)
    case StructNode(_, _, fields) => WriterLevelsOf(fields, own, rep)
  }

  function WriterLevelsOf(fields: seq<WriterNode>, def: nat, rep: nat): seq<(nat, nat)> {
    if fields == [] then [] else WriterLevels(fields[0], def, rep) + WriterLevelsOf(fields[1..], def, rep)
  }

  /** The primitives below a node, one for each column. */
  function WriterLeaves(node: WriterNode): seq<WriterNode> {
    match node
    case PrimitiveNode(_, _, _, _, _, _) => [node]
    case ListNode(_, _, element) => WriterLeaves(element)
    case MapNode(_, _, key, value) => WriterLeaves(key) + WriterLeaves(value)
    case StructNode(_, _, fields) => WriterLeavesOf(fields)
  }

  function WriterLeavesOf(fields: seq<WriterNode>): seq<WriterNode> {
    if fields == [] then [] else WriterLeaves(fields[0]) + WriterLeavesOf(fields[1..])
  }

  /** The paths of the leaves below a node that is itself at `path`. */
  function LeafPaths(node: WriterNode, path: seq<string>): seq<seq<string>> {
    match node
    case PrimitiveNode(_, _, _, _, _, _) => [path]
    case ListNode(_, _, element) => LeafPaths(element, path + ["list"] + ["element"])
    case MapNode(_, _, key, value) =>
      LeafPaths(key, path + ["key_value"] + ["key"]) + LeafPaths(value, path + ["key_value"] + ["value"])
    case StructNode(_, _, fields) => LeafPathsOf(fields, path)
  }

  function LeafPathsOf(fields: seq<WriterNode>, path: seq<string>): seq<seq<string>> {
    if fields == [] then [] else LeafPaths(fields[0], path + [fields[0].name]) + LeafPathsOf(fields[1..], path)
  }

  // ----- The reader's raw schema -----

  /** A node of the tree with its path, column index and levels filled in. */
  datatype RawNode = RawNode(
    info: SchemaElement, children: seq<RawNode>, path: seq<string>, column_index: nat, def_level: nat, rep_level: nat)

  /** The column index of a node that is not a leaf: minus one in 32 bits. */
  const NO_COLUMN := 0xFFFF_FFFF

  function OwnDef(info: SchemaElement, def: nat): nat {
    if info.RepetitionType() == REQUIRED then def else def + 1
  }

  function OwnRep(info: SchemaElement, rep: nat): nat {
    if info.RepetitionType() == REPEATED then rep + 1 else rep
  }

  function LeafCount(s: Shape): nat {
    if s.info.num_children.None? then 1 else LeafCountOf(s.children)
  }

  function LeafCountOf(children: seq<Shape>): nat {
    if children == [] then 0 else LeafCount(children[0]) + LeafCountOf(children[1..])
  }

  /** What the passes over the tree leave in each node: `def` and `rep` are the levels of the
      parent, `path` is its path and `next` the number of leaves before this node. */
  function Annotate(s: Shape, def: nat, rep: nat, path: seq<string>, next: nat): RawNode {
    var d, r := OwnDef(s.info, def), OwnRep(s.info, rep);
    var p := path + [s.info.name];
    if s.info.num_children.None? then RawNode(s.info, AnnotateAll(s.children, d, r, p, next), p, next, d, r)
    else RawNode(s.info, AnnotateAll(s.children, d, r, p, next), p, NO_COLUMN, d, r)
  }

  function AnnotateAll(children: seq<Shape>, def: nat, rep: nat, path: seq<string>, next: nat): (r: seq<RawNode>)
    ensures |r| == |children|
  {
    if children == [] then []
    else
      [Annotate(children[0], def, rep, path, next)]
      + AnnotateAll(children[1..], def, rep, path, next + LeafCount(children[0]))
  }

  /** The root is not part of the paths. */
  function AnnotateRoot(s: Shape): RawNode {
    var d, r := OwnDef(s.info, 0), OwnRep(s.info, 0);
    RawNode(s.info, AnnotateAll(s.children, d, r, [], 0), [], NO_COLUMN, d, r)
  }

  /** The leaves in the order of their columns. */
  function RawLeaves(r: RawNode): seq<RawNode> {
    if r.info.num_children.None? then [r] else RawLeavesOf(r.children)
  }

  function RawLeavesOf(children: seq<RawNode>): seq<RawNode> {
    if children == [] then [] else RawLeaves(children[0]) + RawLeavesOf(children[1..])
  }

  /** `leaves` have the types of the writer's leaves and the given levels and paths, and are columns
      `next`, `next` + 1, ... */
  predicate AreColumns(
    leaves: seq<RawNode>, writers: seq<WriterNode>, levels: seq<(nat, nat)>, paths: seq<seq<string>>, next: nat)
  {
    && |leaves| == |writers| == |levels| == |paths|
    && forall i :: 0 <= i < |leaves| ==>
      && writers[i].PrimitiveNode? && leaves[i].info.leaf == Some(writers[i].physical)
      && (leaves[i].def_level, leaves[i].rep_level) == levels[i] && leaves[i].path == paths[i]
      && leaves[i].column_index == next + i
  }

  lemma {:induction false} NoColumns(next: nat)
    ensures AreColumns([], [], [], [], next)
  {
  }

  lemma {:induction false} ColumnsAppend(
    a: seq<RawNode>, wa: seq<WriterNode>, la: seq<(nat, nat)>, pa: seq<seq<string>>,
    b: seq<RawNode>, wb: seq<WriterNode>, lb: seq<(nat, nat)>, pb: seq<seq<string>>, next: nat)
    requires AreColumns(a, wa, la, pa, next) && AreColumns(b, wb, lb, pb, next + |a|)
    ensures AreColumns(a + b, wa + wb, la + lb, pa + pb, next)
  {
  }

  /** The reader computes from the flattened schema the very columns that the writer makes. */
  ghost predicate Agree(node: WriterNode, name: string, def: nat, rep: nat, path: seq<string>, next: nat) {
    && LeafCount(ShapeOf(node, name)) == |WriterLevels(node, def, rep)|
    && AreColumns(RawLeaves(Annotate(ShapeOf(node, name), def, rep, path, next)), WriterLeaves(node),
        WriterLevels(node, def, rep), LeafPaths(node, path + [name]), next)
  }

  lemma {:induction false} ColumnsAgree(node: WriterNode, name: string, def: nat, rep: nat, path: seq<string>, next: nat)
    ensures Agree(node, name, def, rep, path, next)
    decreases node, 1
  {
    match node
    case PrimitiveNode(_, _, _, _, _, _) =>
    case ListNode(_, _, _) => ListColumnsAgree(node, name, def, rep, path, next);
    case MapNode(_, _, _, _) => MapColumnsAgree(node, name, def, rep, path, next);
    case StructNode(_, optional, fields) =>
      FieldColumnsAgree(fields, def + (if optional then 1 else 0), rep, path + [name], next);
  }

  lemma {:induction false} ListColumnsAgree(node: WriterNode, name: string, def: nat, rep: nat, path: seq<string>, next: nat)
    requires node.ListNode?
    ensures Agree(node, name, def, rep, path, next)
    decreases node, 0
  {
    hide Annotate, RawLeaves, LeafCount, AreColumns, AnnotateAll, RawLeavesOf, LeafCountOf;
    var d, r, p := def + (if node.optional then 2 else 1), rep + 1, path + [name] + ["list"];
    var inner := ShapeOf(node.element, "element");
    ColumnsAgree(node.element, "element", d, r, p, next);
    Wrapped(name, node.optional, LIST, Group("list", Some(REPEATED), 1, None), [inner], def, rep, path, next);
    OnlyLeaf(inner, d, r, p, next);
  }

  lemma {:induction false} MapColumnsAgree(node: WriterNode, name: string, def: nat, rep: nat, path: seq<string>, next: nat)
    requires node.MapNode?
    ensures Agree(node, name, def, rep, path, next)
    decreases node, 0
  {
    hide Annotate, RawLeaves, LeafCount, AreColumns, AnnotateAll, RawLeavesOf, LeafCountOf;
    var d, r, p := def + (if node.optional then 2 else 1), rep + 1, path + [name] + ["key_value"];
    var k, v := ShapeOf(node.key, "key"), ShapeOf(node.value, "value");
    ColumnsAgree(node.key, "key", d, r, p, next);
    ColumnsAgree(node.value, "value", d, r, p, next + LeafCount(k));
    Wrapped(name, node.optional, MAP, Group("key_value", Some(REPEATED), 2, None), [k, v], def, rep, path, next);
    TwoLeaves(k, v, d, r, p, next);
    BothColumns(node.key, node.value, d, r, p, next);
  }

  lemma {:induction false} BothColumns(
    key: WriterNode, value: WriterNode, d: nat, r: nat, p: seq<string>, next: nat)
    requires Agree(key, "key", d, r, p, next)
    requires Agree(value, "value", d, r, p, next + LeafCount(ShapeOf(key, "key")))
    ensures var k, v := ShapeOf(key, "key"), ShapeOf(value, "value");
      && LeafCount(k) + LeafCount(v) == |WriterLevels(key, d, r) + WriterLevels(value, d, r)|
      && AreColumns(RawLeaves(Annotate(k, d, r, p, next)) + RawLeaves(Annotate(v, d, r, p, next + LeafCount(k))),
        WriterLeaves(key) + WriterLeaves(value),
        WriterLevels(key, d, r) + WriterLevels(value, d, r), LeafPaths(key, p + ["key"]) + LeafPaths(value, p + ["value"]), next)
  {
    hide Annotate, LeafCount, WriterLevels, WriterLeaves, LeafPaths, RawLeaves, ShapeOf;
    var k, v := ShapeOf(key, "key"), ShapeOf(value, "value");
    ColumnsAppend(
      RawLeaves(Annotate(k, d, r, p, next)), WriterLeaves(key), WriterLevels(key, d, r), LeafPaths(key, p + ["key"]),
      RawLeaves(Annotate(v, d, r, p, next + LeafCount(k))), WriterLeaves(value), WriterLevels(value, d, r),
      LeafPaths(value, p + ["value"]), next);
  }

  /** A group around a repeated group has the leaves of the latter's children, one level down. */
  lemma {:induction false} Wrapped(
    name: string, optional: bool, converted: ConvertedType, repeated: SchemaElement, children: seq<Shape>,
    def: nat, rep: nat, path: seq<string>, next: nat)
    requires repeated.num_children.Some? && repeated.repetition == Some(REPEATED)
    ensures var s := Shape(Group(name, RepetitionOf(optional), 1, Some(converted)), [Shape(repeated, children)]);
      var own := def + (if optional then 1 else 0);
      && LeafCount(s) == LeafCountOf(children)
      && RawLeaves(Annotate(s, def, rep, path, next))
        == RawLeavesOf(AnnotateAll(children, own + 1, rep + 1, path + [name] + [repeated.name], next))
  {
    var own := def + (if optional then 1 else 0);
    OnlyLeaf(Shape(repeated, children), own, rep, path + [name], next);
  }

  lemma {:induction false} TwoLeaves(k: Shape, v: Shape, def: nat, rep: nat, path: seq<string>, next: nat)
    ensures LeafCountOf([k, v]) == LeafCount(k) + LeafCount(v)
    ensures RawLeavesOf(AnnotateAll([k, v], def, rep, path, next))
      == RawLeaves(Annotate(k, def, rep, path, next)) + RawLeaves(Annotate(v, def, rep, path, next + LeafCount(k)))
    ensures AnnotateAll([k, v], def, rep, path, next)
      == [Annotate(k, def, rep, path, next), Annotate(v, def, rep, path, next + LeafCount(k))]
  {
    hide Annotate, LeafCount, RawLeaves;
    assert [k, v][1..] == [v];
    OnlyLeaf(v, def, rep, path, next + LeafCount(k));
    var a, b := Annotate(k, def, rep, path, next), AnnotateAll([v], def, rep, path, next + LeafCount(k));
    assert AnnotateAll([k, v], def, rep, path, next) == [a] + b && ([a] + b)[1..] == b;
  }

  lemma {:induction false} OnlyLeaf(s: Shape, def: nat, rep: nat, path: seq<string>, next: nat)
    ensures LeafCountOf([s]) == LeafCount(s)
    ensures RawLeavesOf(AnnotateAll([s], def, rep, path, next)) == RawLeaves(Annotate(s, def, rep, path, next))
    ensures AnnotateAll([s], def, rep, path, next) == [Annotate(s, def, rep, path, next)]
  {
    assert [s][1..] == [];
    var r := Annotate(s, def, rep, path, next);
    assert AnnotateAll([s], def, rep, path, next) == [r] && [r][1..] == [];
  }

  lemma {:induction false} FieldColumnsAgree(fields: seq<WriterNode>, def: nat, rep: nat, path: seq<string>, next: nat)
    ensures LeafCountOf(ShapesOf(fields)) == |WriterLevelsOf(fields, def, rep)|
    ensures AreColumns(RawLeavesOf(AnnotateAll(ShapesOf(fields), def, rep, path, next)), WriterLeavesOf(fields),
      WriterLevelsOf(fields, def, rep), LeafPathsOf(fields, path), next)
    decreases fields, 1
  {
    hide Annotate, RawLeaves, WriterLevels, WriterLeaves, LeafPaths, LeafCount, ShapeOf;
    if fields == [] {
      NoColumns(next);
    } else {
      var head, tail := ShapeOf(fields[0], fields[0].name), ShapesOf(fields[1..]);
      var after := next + LeafCount(head);
      ColumnsAgree(fields[0], fields[0].name, def, rep, path, next);
      FieldColumnsAgree(fields[1..], def, rep, path, after);
      assert ([head] + tail)[1..] == tail;
      var a, b := Annotate(head, def, rep, path, next), AnnotateAll(tail, def, rep, path, after);
      assert ([a] + b)[1..] == b;
      ColumnsAppend(
        RawLeaves(a), WriterLeaves(fields[0]), WriterLevels(fields[0], def, rep), LeafPaths(fields[0], path + [fields[0].name]),
        RawLeavesOf(b), WriterLeavesOf(fields[1..]), WriterLevelsOf(fields[1..], def, rep), LeafPathsOf(fields[1..], path), next);
    }
  }
}
