/**
The passes that write and read flat schemas: the writer appends elements and leaf paths while
it keeps the path of the node it is at; the reader advances an index through the elements.
 */
module SchemaIO {
  import opened Options
  import opened Formats
  import opened Bits
  import opened Schemas
  import opened LogicalSchemas
  import R = Records

  // ----- Writing -----

  /** No map anywhere below has an optional key. */
  predicate KeysRequired(node: WriterNode) {
    match node
    case PrimitiveNode(_, _, _, _, _, _) => true
    case ListNode(_, _, element) => KeysRequired(element)
    case MapNode(_, _, key, value) => !key.optional && KeysRequired(key) && KeysRequired(value)
    case StructNode(_, _, fields) => AllKeysRequired(fields)
  }

  predicate AllKeysRequired(fields: seq<WriterNode>) {
    fields == [] || (KeysRequired(fields[0]) && AllKeysRequired(fields[1..]))
  }

  /** A node and all nodes below it. */
  function Within(node: WriterNode): seq<WriterNode> {
    match node
    case PrimitiveNode(_, _, _, _, _, _) => [node]
    case ListNode(_, _, element) => [node] + Within(element)
    case MapNode(_, _, key, value) => [node] + Within(key) + Within(value)
    case StructNode(_, _, fields) => [node] + WithinAll(fields)
  }

  function WithinAll(fields: seq<WriterNode>): seq<WriterNode> {
    if fields == [] then [] else Within(fields[0]) + WithinAll(fields[1..])
  }

  ghost predicate NoOptionalKey(nodes: seq<WriterNode>) {
    forall n :: n in nodes && n.MapNode? ==> !n.key.optional
  }

  lemma {:induction false} AllKeysRequiredIff(fields: seq<WriterNode>)
    ensures AllKeysRequired(fields) <==> NoOptionalKey(WithinAll(fields))
  {
    hide Within;
    if fields != [] {
      KeysRequiredIff(fields[0]);
      AllKeysRequiredIff(fields[1..]);
    }
  }

  lemma {:induction false} KeysRequiredIff(node: WriterNode)
    ensures KeysRequired(node) <==> NoOptionalKey(Within(node))
  {
    hide AllKeysRequired, WithinAll;
    assert node in Within(node);
    match node
    case PrimitiveNode(_, _, _, _, _, _) =>
    case ListNode(_, _, element) => KeysRequiredIff(element);
    case MapNode(_, _, key, value) =>
      KeysRequiredIff(key);
      KeysRequiredIff(value);
    case StructNode(_, _, fields) => AllKeysRequiredIff(fields);
  }

  ghost predicate NoEmptyStruct(nodes: seq<WriterNode>) {
    forall n :: n in nodes && n.StructNode? ==> n.fields != []
  }

  lemma {:induction false} AllSolidIff(fields: seq<WriterNode>)
    ensures AllSolid(fields) <==> NoEmptyStruct(WithinAll(fields))
  {
    hide Within, Solid;
    if fields != [] {
      SolidIff(fields[0]);
      AllSolidIff(fields[1..]);
    }
  }

  /** A node is solid if and only if there are no empty structs in it. */
  lemma {:induction false} SolidIff(node: WriterNode)
    ensures Solid(node) <==> NoEmptyStruct(Within(node))
  {
    hide AllSolid, WithinAll;
    assert node in Within(node);
    match node
    case PrimitiveNode(_, _, _, _, _, _) =>
    case ListNode(_, _, element) => SolidIff(element);
    case MapNode(_, _, key, value) =>
      SolidIff(key);
      SolidIff(value);
    case StructNode(_, _, fields) => AllSolidIff(fields);
  }

  class SchemaWriter {
    var elements: seq<SchemaElement>
    var leaf_paths: seq<seq<string>>
    var path_in_schema: seq<string>

    constructor ()
      ensures elements == [] && leaf_paths == [] && path_in_schema == []
    {
      elements, leaf_paths, path_in_schema := [], [], [];
    }

    method Push(name: string)
      modifies `path_in_schema
      ensures path_in_schema == old(path_in_schema) + [name]
    {
      path_in_schema := path_in_schema + [name];
    }

    method Pop()
      requires path_in_schema != []
      modifies `path_in_schema
      ensures path_in_schema == old(path_in_schema)[..|old(path_in_schema)| - 1]
    {
      path_in_schema := path_in_schema[..|path_in_schema| - 1];
    }

    method Add(e: SchemaElement)
      modifies `elements
      ensures elements == old(elements) + [e]
    {
      elements := elements + [e];
    }

    /** Add the elements and leaf paths of the node that the current path names. */
    method Convert(node: WriterNode) returns (ok: bool)
      requires path_in_schema != []
      modifies this
      ensures ok <==> KeysRequired(node)
      ensures ok ==>
        && path_in_schema == old(path_in_schema)
        && elements == old(elements) + Preorder(ShapeOf(node, path_in_schema[|path_in_schema| - 1]))
        && leaf_paths == old(leaf_paths) + LeafPaths(node, path_in_schema)
      decreases node, 1
    {
      var name := path_in_schema[|path_in_schema| - 1];
      match node
      case PrimitiveNode(_, optional, physical, _, _, _) =>
        Add(SchemaElement(name, RepetitionOf(optional), None, None, Some(physical)));
        leaf_paths := leaf_paths + [path_in_schema];
        ok := true;
      case ListNode(_, _, _) => ok := ConvertList(node);
      case MapNode(_, _, _, _) => ok := ConvertMap(node);
      case StructNode(_, optional, fields) =>
        Add(Group(name, RepetitionOf(optional), |fields|, None));
        ok := ConvertFields(fields);
        Associate(old(elements), [Group(name, RepetitionOf(optional), |fields|, None)], PreorderAll(ShapesOf(fields)));
    }

    /** Push the name of a child, convert it and pop the name again. */
    method ConvertChild(node: WriterNode, name: string) returns (ok: bool)
      modifies this
      ensures ok <==> KeysRequired(node)
      ensures ok ==>
        && path_in_schema == old(path_in_schema)
        && elements == old(elements) + Preorder(ShapeOf(node, name))
        && leaf_paths == old(leaf_paths) + LeafPaths(node, path_in_schema + [name])
      decreases node, 2
    {
      hide KeysRequired, ShapeOf, Preorder, LeafPaths;
      Push(name);
      ok := Convert(node);
      if ok {
        Pop();
      }
    }

    method ConvertList(node: WriterNode) returns (ok: bool)
      requires path_in_schema != [] && node.ListNode?
      modifies this
      ensures ok <==> KeysRequired(node)
      ensures ok ==>
        && path_in_schema == old(path_in_schema)
        && elements == old(elements) + Preorder(ShapeOf(node, path_in_schema[|path_in_schema| - 1]))
        && leaf_paths == old(leaf_paths) + LeafPaths(node, path_in_schema)
      decreases node, 0
    {
      hide Preorder, PreorderAll;
      var name := path_in_schema[|path_in_schema| - 1];
      Add(Group(name, RepetitionOf(node.optional), 1, Some(LIST)));
      Push("list");
      Add(Group("list", Some(REPEATED), 1, None));
      ok := ConvertChild(node.element, "element");
      if ok {
        Pop();
        Nested(old(elements), Group(name, RepetitionOf(node.optional), 1, Some(LIST)), Group("list", Some(REPEATED), 1, None),
          [ShapeOf(node.element, "element")]);
        OneShape(ShapeOf(node.element, "element"));
      }
    }

    method ConvertMap(node: WriterNode) returns (ok: bool)
      requires path_in_schema != [] && node.MapNode?
      modifies this
      ensures ok <==> KeysRequired(node)
      ensures ok ==>
        && path_in_schema == old(path_in_schema)
        && elements == old(elements) + Preorder(ShapeOf(node, path_in_schema[|path_in_schema| - 1]))
        && leaf_paths == old(leaf_paths) + LeafPaths(node, path_in_schema)
      decreases node, 0
    {
      hide Preorder, PreorderAll;
      var name := path_in_schema[|path_in_schema| - 1];
      Add(Group(name, RepetitionOf(node.optional), 1, Some(MAP)));
      Push("key_value");
      Add(Group("key_value", Some(REPEATED), 2, None));
      if node.key.optional {
        return false;
      }
      ghost var before, paths := elements, leaf_paths;
      ok := ConvertChild(node.key, "key");
      if ok {
        ok := ConvertChild(node.value, "value");
      }
      if ok {
        Pop();
        var k, v := ShapeOf(node.key, "key"), ShapeOf(node.value, "value");
        Associate(before, Preorder(k), Preorder(v));
        Associate(paths, LeafPaths(node.key, path_in_schema + ["key_value"] + ["key"]),
          LeafPaths(node.value, path_in_schema + ["key_value"] + ["value"]));
        TwoShapes(k, v);
        Nested(old(elements), Group(name, RepetitionOf(node.optional), 1, Some(MAP)), Group("key_value", Some(REPEATED), 2, None), [k, v]);
      }
    }

    /** Every field under its own name. */
    method ConvertFields(fields: seq<WriterNode>) returns (ok: bool)
      modifies this
      ensures ok <==> AllKeysRequired(fields)
      ensures ok ==>
        && path_in_schema == old(path_in_schema)
        && elements == old(elements) + PreorderAll(ShapesOf(fields))
        && leaf_paths == old(leaf_paths) + LeafPathsOf(fields, path_in_schema)
      decreases fields, 1
    {
      hide KeysRequired, ShapeOf, Preorder, LeafPaths;
      ok := true;
      ghost var e, p := PreorderAll(ShapesOf(fields)), LeafPathsOf(fields, path_in_schema);
      var i := 0;
      while ok && i < |fields|
        invariant i <= |fields|
        invariant ok ==> (AllKeysRequired(fields) <==> AllKeysRequired(fields[i..]))
        invariant !ok ==> !AllKeysRequired(fields)
        invariant ok ==>
          && path_in_schema == old(path_in_schema)
          && old(elements) + e == elements + PreorderAll(ShapesOf(fields[i..]))
          && old(leaf_paths) + p == leaf_paths + LeafPathsOf(fields[i..], path_in_schema)
      {
        ghost var later := fields[i..];
        NextField(later, elements, leaf_paths, path_in_schema);
        assert later[0] == fields[i] && later[1..] == fields[i + 1..];
        ok := ConvertChild(fields[i], fields[i].name);
        i := i + 1;
      }
      assert ok ==> fields[i..] == [];
    }
  }

  lemma {:induction false} NextField(fields: seq<WriterNode>, e: seq<SchemaElement>, p: seq<seq<string>>, path: seq<string>)
    requires fields != []
    ensures e + PreorderAll(ShapesOf(fields)) == e + Preorder(ShapeOf(fields[0], fields[0].name)) + PreorderAll(ShapesOf(fields[1..]))
    ensures p + LeafPathsOf(fields, path) == p + LeafPaths(fields[0], path + [fields[0].name]) + LeafPathsOf(fields[1..], path)
  {
    hide ShapeOf, Preorder, LeafPaths;
    var head, tail := ShapeOf(fields[0], fields[0].name), ShapesOf(fields[1..]);
    assert ([head] + tail)[1..] == tail;
    Associate(e, Preorder(head), PreorderAll(tail));
    Associate(p, LeafPaths(fields[0], path + [fields[0].name]), LeafPathsOf(fields[1..], path));
  }

  lemma {:induction false} OneShape(s: Shape)
    ensures PreorderAll([s]) == Preorder(s)
  {
    assert [s][1..] == [];
  }

  lemma {:induction false} TwoShapes(s: Shape, t: Shape)
    ensures PreorderAll([s, t]) == Preorder(s) + Preorder(t)
  {
    hide Preorder;
    assert [s, t][1..] == [t];
    OneShape(t);
  }

  lemma {:induction false} Nested(e: seq<SchemaElement>, group: SchemaElement, repeated: SchemaElement, children: seq<Shape>)
    ensures e + [group] + [repeated] + PreorderAll(children) == e + Preorder(Shape(group, [Shape(repeated, children)]))
  {
    hide PreorderAll;
    OneShape(Shape(repeated, children));
  }

  /** The flat schema and the leaf paths, or nothing for a schema with an optional map key. */
  method WriteSchema(fields: seq<WriterNode>) returns (r: Option<(seq<SchemaElement>, seq<seq<string>>)>)
    ensures r.Some? <==> AllKeysRequired(fields)
    ensures r.Some? ==> r.value == (Preorder(RootShape(fields)), LeafPathsOf(fields, []))
  {
    hide AllKeysRequired, ShapesOf, PreorderAll, LeafPathsOf;
    var w := new SchemaWriter();
    w.Add(Group("schema", None, |fields|, None));
    var ok := w.ConvertFields(fields);
    if !ok {
      return None;
    }
    var paths := LeafPathsOf(fields, []);
    assert [] + paths == paths && w.leaf_paths == paths;
    assert w.elements == Preorder(RootShape(fields));
    return Some((w.elements, w.leaf_paths));
  }

  // ----- Column writers -----

  /** The optional compressors that the library is built with. */
  datatype Build = Build(zstd: bool, lz4: bool)

  /** There is an encoder for values of this type. */
  predicate HasEncoder(physical: PhysicalType, encoding: Encoding) {
    || encoding == PLAIN || encoding == RLE_DICTIONARY
    || (encoding == DELTA_BINARY_PACKED && (physical == INT32 || physical == INT64))
  }

  predicate HasCompressor(build: Build, compression: CompressionCodec) {
    match compression
    case UNCOMPRESSED | SNAPPY | GZIP => true
    case ZSTD => build.zstd
    case LZ4 => build.lz4
    case _ => false
  }

  /** Every leaf below can have a column writer. */
  predicate Writable(build: Build, node: WriterNode) {
    match node
    case PrimitiveNode(_, _, physical, _, encoding, compression) =>
      physical != INT96 && HasEncoder(physical, encoding) && HasCompressor(build, compression)
    case ListNode(_, _, element) => Writable(build, element)
    case MapNode(_, _, key, value) => Writable(build, key) && Writable(build, value)
    case StructNode(_, _, fields) => AllWritable(build, fields)
  }

  predicate AllWritable(build: Build, fields: seq<WriterNode>) {
    fields == [] || (Writable(build, fields[0]) && AllWritable(build, fields[1..]))
  }

  /** What a column writer can be made for. */
  predicate Supported(build: Build, leaf: WriterNode) {
    && leaf.PrimitiveNode?
    && (match leaf.physical
        case INT96 => false
        case INT32 | INT64 => leaf.encoding in [PLAIN, RLE_DICTIONARY, DELTA_BINARY_PACKED]
        case _ => leaf.encoding in [PLAIN, RLE_DICTIONARY])
    && leaf.compression
      in [UNCOMPRESSED, SNAPPY, GZIP] + (if build.zstd then [ZSTD] else []) + (if build.lz4 then [LZ4] else [])
  }

  ghost predicate AllSupported(build: Build, leaves: seq<WriterNode>) {
    forall leaf :: leaf in leaves ==> Supported(build, leaf)
  }

  lemma {:induction false} AllWritableIff(build: Build, fields: seq<WriterNode>)
    ensures AllWritable(build, fields) <==> AllSupported(build, WriterLeavesOf(fields))
  {
    hide WriterLeaves, Supported;
    if fields != [] {
      WritableIff(build, fields[0]);
      AllWritableIff(build, fields[1..]);
    }
  }

  lemma {:induction false} WritableIff(build: Build, node: WriterNode)
    ensures Writable(build, node) <==> AllSupported(build, WriterLeaves(node))
  {
    hide AllWritable, WriterLeavesOf;
    match node
    case PrimitiveNode(_, _, _, _, _, _) =>
      assert node in WriterLeaves(node);
    case ListNode(_, _, element) => WritableIff(build, element);
    case MapNode(_, _, key, value) =>
      WritableIff(build, key);
      WritableIff(build, value);
    case StructNode(_, _, fields) => AllWritableIff(build, fields);
  }

  class FileWriter {
    const build: Build
    var writers: seq<(nat, nat)>  // the maximum definition and repetition level of each column writer

    constructor (build: Build)
      ensures writers == [] && this.build == build
    {
      this.build, writers := build, [];
    }

    /** Add a column writer for every leaf; a leaf of the deprecated type stops that, and so does
        one whose encoding its type does not have, or whose compression the library does not have. */
    method InitWriters(node: WriterNode, def: nat, rep: nat) returns (ok: bool)
      modifies this
      ensures ok <==> Writable(build, node)
      ensures ok ==> writers == old(writers) + WriterLevels(node, def, rep)
      decreases node
    {
      var x := if node.optional then 1 else 0;
      match node
      case ListNode(_, _, element) => ok := InitWriters(element, def + 1 + x, rep + 1);
      case MapNode(_, _, key, value) =>
        ok := InitWriters(key, def + 1 + x, rep + 1);
        if ok {
          ok := InitWriters(value, def + 1 + x, rep + 1);
        }
        Associate(old(writers), WriterLevels(key, def + 1 + x, rep + 1), WriterLevels(value, def + 1 + x, rep + 1));
      case StructNode(_, _, fields) => ok := InitFields(fields, def + x, rep);
      case PrimitiveNode(_, _, physical, _, encoding, compression) =>
        ok := physical != INT96 && HasEncoder(physical, encoding) && HasCompressor(build, compression);
        if ok {
          writers := writers + [(def + x, rep)];
        }
    }

    method InitFields(fields: seq<WriterNode>, def: nat, rep: nat) returns (ok: bool)
      modifies this
      ensures ok <==> AllWritable(build, fields)
      ensures ok ==> writers == old(writers) + WriterLevelsOf(fields, def, rep)
      decreases fields
    {
      hide Writable, WriterLevels;
      ok := true;
      ghost var w := WriterLevelsOf(fields, def, rep);
      var i := 0;
      while ok && i < |fields|
        invariant i <= |fields|
        invariant ok ==> (AllWritable(build, fields) <==> AllWritable(build, fields[i..]))
        invariant !ok ==> !AllWritable(build, fields)
        invariant ok ==> old(writers) + w == writers + WriterLevelsOf(fields[i..], def, rep)
      {
        ghost var later := fields[i..];
        assert later[0] == fields[i] && later[1..] == fields[i + 1..];
        Associate(writers, WriterLevels(fields[i], def, rep), WriterLevelsOf(fields[i + 1..], def, rep));
        ok := InitWriters(fields[i], def, rep);
        i := i + 1;
      }
      assert ok ==> fields[i..] == [];
    }
  }

  // ----- Reading -----

  class ShapeReader {
    const flat: seq<SchemaElement>
    var index: nat

    constructor (flat: seq<SchemaElement>)
      ensures this.flat == flat && index == 0
    {
      this.flat, index := flat, 0;
    }

    /** The tree whose elements start at the index, which ends up behind them. */
    method Convert() returns (s: Option<Shape>)
      requires index <= |flat|
      modifies this
      ensures old(index) <= index <= |flat|
      ensures var p := Parse(old(flat[index..]));
        if s.None? then p.Corrupted? else p == Parsed(s.value, flat[index..]) && index > old(index)
      decreases |flat| - index, 0
    {
      if index >= |flat| {
        return None;
      }
      var current := flat[index];
      ghost var all := flat[index..];
      index := index + 1;
      DropDrop(flat, index - 1, 1);
      if current.num_children.None? {
        return Some(Shape(current, []));
      }
      if current.num_children.value < 0 {
        return None;
      }
      var children := ConvertChildren(current.num_children.value);
      if children.None? {
        return None;
      }
      return Some(Shape(current, children.value));
    }

    method ConvertChildren(n: nat) returns (r: Option<seq<Shape>>)
      requires index <= |flat|
      modifies this
      ensures old(index) <= index <= |flat|
      ensures var p := ParseAll(n, old(flat[index..]));
        if r.None? then p.AllCorrupted? else p == ParsedAll(r.value, flat[index..])
      decreases |flat| - index, 1
    {
      hide Parse;
      ghost var whole := ParseAll(n, flat[index..]);
      var children: seq<Shape> := [];
      var i := 0;
      while i < n
        invariant i <= n && old(index) <= index <= |flat|
        invariant var p := ParseAll(n - i, flat[index..]);
          whole == if p.AllCorrupted? then AllCorrupted else ParsedAll(children + p.shapes, p.rest)
      {
        var child := Convert();
        if child.None? {
          return None;
        }
        ghost var p := ParseAll(n - i - 1, flat[index..]);
        if p.ParsedAll? {
          Associate(children, [child.value], p.shapes);
        }
        children := children + [child.value];
        i := i + 1;
      }
      return Some(children);
    }
  }

  method ReadShape(flat: seq<SchemaElement>) returns (s: Option<Shape>)
    ensures var p := Parse(flat); if p.Corrupted? then s == None else s == Some(p.shape)
  {
    var reader := new ShapeReader(flat);
    assert flat[0..] == flat;
    s := reader.Convert();
  }

  // ----- Both ways -----

  /** Set up a file for a schema and read the schema back. A schema that the writer takes comes
      back as its logical tree, unless the key of a map has children; and the i-th primitive of
      the tree is column i, with the levels of the i-th column writer. */
  method WriteThenRead(build: Build, fields: seq<WriterNode>) returns (
      written: Option<(seq<SchemaElement>, seq<seq<string>>)>, writers: seq<(nat, nat)>, read: Option<seq<R.Node>>)
    ensures written.Some? <==> NoOptionalKey(WithinAll(fields)) && AllSupported(build, WriterLeavesOf(fields))
    ensures written.Some? ==>
      && written.value.0 != [] && written.value.0[0] == SchemaElement("schema", None, Some(|fields|), None, None)
      && Parse(written.value.0).Parsed?
      && AreColumns(RawColumns(written.value.0), WriterLeavesOf(fields), writers, written.value.1, 0)
    ensures written.Some? ==> (read.Some? <==> AllLiftable(fields))
    ensures written.Some? && read.Some? ==>
      && read.value == LogicalFields(fields, 0, 0, 0)
      && R.AllLevelled(read.value, 0, 0)
      && HaveLevels(R.PrimitivesOf(read.value), writers)
      && |written.value.1| == |writers|
  {
    hide AllKeysRequired, AllWritable, AllLiftable, LogicalFields, R.AllLevelled, WriterLevelsOf, LeafPathsOf,
      ReadSchema, BuildAll,
      PreorderAll, ShapesOf, HaveLevels, R.PrimitivesOf, Parse, RawColumns, WriterLeavesOf, NoOptionalKey, WithinAll, AllSupported;
    AllKeysRequiredIff(fields);
    AllWritableIff(build, fields);
    written, writers, read := None, [], None;
    var flat := WriteSchema(fields);
    var file := new FileWriter(build);
    var ok := file.InitFields(fields, 0, 0);
    if flat.None? || !ok {
      return;
    }
    written, writers := flat, file.writers;
    var elements := flat.value.0;
    assert elements + [] == elements;
    assert [] + WriterLevelsOf(fields, 0, 0) == WriterLevelsOf(fields, 0, 0);
    SchemaReadsBack(fields, []);
    RawColumnsReadBack(fields);
    read := ReadFlat(elements);
  }

  /** A map that the writer takes and the reader does not: its key is a struct. */
  lemma {:induction false} StructKeyIsLost(build: Build, leaf: WriterNode)
    requires leaf.PrimitiveNode? && !leaf.optional && Writable(build, leaf)
    ensures var fields := [MapNode("m", false, StructNode("k", false, [leaf]), leaf)];
      && AllKeysRequired(fields) && AllWritable(build, fields)
      && ReadSchema(Preorder(RootShape(fields))) == None
  {
    hide ReadSchema, Preorder, RootShape;
    var fields := [MapNode("m", false, StructNode("k", false, [leaf]), leaf)];
    assert fields[1..] == [] && [leaf][1..] == [];
    assert AllKeysRequired([leaf]) && KeysRequired(fields[0]) && AllKeysRequired([]);
    assert AllWritable(build, [leaf]) && Writable(build, fields[0]) && AllWritable(build, []);
    assert !Liftable(fields[0]);
    SchemaReadsBack(fields, []);
    assert Preorder(RootShape(fields)) + [] == Preorder(RootShape(fields));
  }

  method ReadFlat(flat: seq<SchemaElement>) returns (r: Option<seq<R.Node>>)
    ensures r == ReadSchema(flat)
  {
    hide Parse, BuildAll, AnnotateAll;
    var s := ReadShape(flat);
    if s.None? {
      return None;
    }
    return BuildAll(AnnotateRoot(s.value).children);
  }
}
