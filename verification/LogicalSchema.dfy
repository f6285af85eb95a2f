/**
The reader's logical tree, built from the raw one, and what it has to do with the writer's
schema and with the columns.
 */
module LogicalSchemas {
  import opened Options
  import opened Formats
  import opened Schemas
  import R = Records

  // ----- Building -----

  datatype NodeType = MAP_NODE | LIST_NODE | STRUCT_NODE | PRIMITIVE_NODE

  function DetermineNodeType(info: SchemaElement): NodeType {
    if info.num_children.None? then PRIMITIVE_NODE
    else if info.converted_type == Some(MAP) || info.converted_type == Some(MAP_KEY_VALUE) then MAP_NODE
    else if info.converted_type == Some(LIST) then LIST_NODE
    else STRUCT_NODE
  }

  /** One less, in 32 bits. */
  function Down(level: nat): nat {
    if level == 0 then 0xFFFF_FFFF else level - 1
  }

  function Wrap(r: RawNode, inner: Option<R.Node>): Option<R.Node> {
    var info := r.info;
    if inner.None? then None
    else if info.RepetitionType() == OPTIONAL then Some(R.Optional(info.name, Down(r.def_level), r.rep_level, inner.value))
    else if info.RepetitionType() == REPEATED then Some(R.List(info.name, Down(r.def_level), Down(r.rep_level), inner.value))
    else inner
  }

  /** The logical tree below a raw node, or nothing where the reader gives up. */
  function Build(r: RawNode): Option<R.Node>
    decreases r, 2
  {
    Wrap(r, BuildUnwrapped(r))
  }

  function BuildUnwrapped(r: RawNode): Option<R.Node>
    decreases r, 1
  {
    match DetermineNodeType(r.info)
    case MAP_NODE => BuildMap(r)
    case LIST_NODE => BuildList(r)
    case STRUCT_NODE =>
      var fields := BuildAll(r.children);
      if fields.None? then None else Some(R.Struct(r.info.name, fields.value))
    case PRIMITIVE_NODE => Some(LeafNode(r))
  }

  function LeafNode(r: RawNode): R.Node {
    R.Primitive(r.info.name, r.def_level, r.rep_level, r.column_index)
  }

  predicate IsList(r: RawNode) {
    |r.children| == 1 && r.info.RepetitionType() != REPEATED && r.children[0].info.RepetitionType() == REPEATED
  }

  /** A list whose repeated node is itself the element. */
  predicate Legacy(r: RawNode)
    requires |r.children| == 1
  {
    var repeated := r.children[0];
    |repeated.children| != 1 || repeated.info.name == "array" || repeated.info.name == r.info.name + "_tuple"
  }

  function BuildList(r: RawNode): Option<R.Node>
    decreases r, 0
  {
    if !IsList(r) then None
    else
      var element := Build(if Legacy(r) then r.children[0] else r.children[0].children[0]);
      if element.None? then None else Some(R.List(r.info.name, r.def_level, r.rep_level, element.value))
  }

  predicate IsMap(r: RawNode) {
    && |r.children| == 1 && |r.children[0].children| == 2
    && r.children[0].info.RepetitionType() == REPEATED && r.children[0].children[0].children == []
  }

  function BuildMap(r: RawNode): Option<R.Node>
    decreases r, 0
  {
    if !IsMap(r) then None
    else
      var key, value := Build(r.children[0].children[0]), Build(r.children[0].children[1]);
      if key.None? || value.None? then None
      else Some(R.Map(r.info.name, r.def_level, r.rep_level, R.Pair(key.value, value.value)))
  }

  function BuildAll(children: seq<RawNode>): (r: Option<seq<R.Node>>)
    ensures r.Some? ==> |r.value| == |children|
    decreases children, 2
  {
    if children == [] then Some([])
    else
      var first, others := Build(children[0]), BuildAll(children[1..]);
      if first.None? || others.None? then None else Some([first.value] + others.value)
  }

  /** The flat schema of a file as the fields that the record reader follows. */
  function ReadSchema(flat: seq<SchemaElement>): Option<seq<R.Node>> {
    var p := Parse(flat);
    if p.Corrupted? then None else BuildAll(AnnotateRoot(p.shape).children)
  }

  // ----- Levels and columns -----

  /** A node as the passes over the tree leave it, below a parent at levels `def` and `rep`; groups
      have no column. */
  predicate Annotated(r: RawNode, def: nat, rep: nat) {
    && r.def_level == OwnDef(r.info, def) && r.rep_level == OwnRep(r.info, rep)
    && (if r.info.num_children.None? then r.children == [] else r.column_index == 0xFFFF_FFFF)
    && AllAnnotated(r.children, r.def_level, r.rep_level)
  }

  predicate AllAnnotated(children: seq<RawNode>, def: nat, rep: nat) {
    children == [] || (Annotated(children[0], def, rep) && AllAnnotated(children[1..], def, rep))
  }

  lemma {:induction false} AnnotateAnnotates(s: Shape, def: nat, rep: nat, path: seq<string>, next: nat)
    requires Counted(s)
    ensures Annotated(Annotate(s, def, rep, path, next), def, rep)
    decreases s
  {
    AnnotateAllAnnotates(s.children, OwnDef(s.info, def), OwnRep(s.info, rep), path + [s.info.name], next);
  }

  lemma {:induction false} AnnotateAllAnnotates(children: seq<Shape>, def: nat, rep: nat, path: seq<string>, next: nat)
    requires AllCounted(children)
    ensures AllAnnotated(AnnotateAll(children, def, rep, path, next), def, rep)
    decreases children
  {
    hide Annotated, Counted, Annotate;
    if children != [] {
      AnnotateAnnotates(children[0], def, rep, path, next);
      AnnotateAllAnnotates(children[1..], def, rep, path, next + LeafCount(children[0]));
      var a := Annotate(children[0], def, rep, path, next);
      var b := AnnotateAll(children[1..], def, rep, path, next + LeafCount(children[0]));
      assert ([a] + b)[1..] == b;
    }
  }

  lemma {:induction false} OnlyChild(r: RawNode, def: nat, rep: nat)
    requires Annotated(r, def, rep) && |r.children| == 1
    ensures Annotated(r.children[0], r.def_level, r.rep_level) && RawLeaves(r) == RawLeaves(r.children[0])
  {
    hide Annotated, RawLeaves;
    Below(r, def, rep);
    assert r.children[1..] == [] && RawLeavesOf(r.children) == RawLeaves(r.children[0]) + RawLeavesOf([]);
  }

  lemma {:induction false} Below(r: RawNode, def: nat, rep: nat)
    requires Annotated(r, def, rep) && r.children != []
    ensures r.info.num_children.Some? && AllAnnotated(r.children, r.def_level, r.rep_level)
    ensures RawLeaves(r) == RawLeavesOf(r.children)
  {
  }

  lemma {:induction false} TwoChildren(r: RawNode, def: nat, rep: nat)
    requires Annotated(r, def, rep) && |r.children| == 2
    ensures Annotated(r.children[0], r.def_level, r.rep_level) && Annotated(r.children[1], r.def_level, r.rep_level)
    ensures RawLeaves(r) == RawLeaves(r.children[0]) + RawLeaves(r.children[1])
  {
    hide Annotated, RawLeaves;
    var others := r.children[1..];
    assert r.info.num_children.Some? && AllAnnotated(r.children, r.def_level, r.rep_level) && RawLeaves(r) == RawLeavesOf(r.children) by {
      Below(r, def, rep);
    }
    assert AllAnnotated(others, r.def_level, r.rep_level) && others[0] == r.children[1];
    assert RawLeavesOf(others) == RawLeaves(others[0]) + RawLeavesOf(others[1..]);
  }

  function LeafNodes(leaves: seq<RawNode>): (r: seq<R.Node>)
    ensures |r| == |leaves|
  {
    seq(|leaves|, i requires 0 <= i < |leaves| => LeafNode(leaves[i]))
  }

  lemma {:induction false} LeafNodesAppend(a: seq<RawNode>, b: seq<RawNode>)
    ensures LeafNodes(a + b) == LeafNodes(a) + LeafNodes(b)
  {
  }

  /** A tree without lists in the legacy form. */
  predicate Standard(r: RawNode) {
    var c := r.children;
    if r.info.num_children == None then true
    else
      match r.info.converted_type
      case Some(LIST) =>
        && |c| == 1 && |c[0].children| == 1
        && c[0].info.name != "array" && c[0].info.name != r.info.name + "_tuple" && Standard(c[0].children[0])
      case Some(OTHER) => AllStandard(c)
      case None => AllStandard(c)
      case _ => |c| == 1 && |c[0].children| == 2 && Standard(c[0].children[0]) && Standard(c[0].children[1])
  }

  predicate AllStandard(children: seq<RawNode>) {
    children == [] || (Standard(children[0]) && AllStandard(children[1..]))
  }

  // ----- What the nodes stand for -----

  /** The rules by which a reader's node stands for a raw node that is not wrapped. */
  ghost predicate StandsBare(n: R.Node, r: RawNode)
    decreases r, 0
  {
    var c := r.children;
    if r.info.num_children == None then n == R.Primitive(r.info.name, r.def_level, r.rep_level, r.column_index)
    else
      match r.info.converted_type
      case Some(LIST) =>
        && n.List? && (n.name, n.def_level, n.rep_level) == (r.info.name, r.def_level, r.rep_level)
        && |c| == 1 && c[0].info.repetition == Some(REPEATED) && r.info.repetition != Some(REPEATED)
        && (if |c[0].children| == 1 && c[0].info.name != "array" && c[0].info.name != r.info.name + "_tuple"
            then StandsFor(n.body, c[0].children[0])
            else StandsFor(n.body, c[0]))
      case Some(OTHER) => n.Struct? && n.name == r.info.name && AllStandFor(n.fields, c)
      case None => n.Struct? && n.name == r.info.name && AllStandFor(n.fields, c)
      case _ =>
        && n.Map? && (n.name, n.def_level, n.rep_level) == (r.info.name, r.def_level, r.rep_level) && n.body.Pair?
        && |c| == 1 && c[0].info.repetition == Some(REPEATED) && |c[0].children| == 2 && c[0].children[0].children == []
        && StandsFor(n.body.key, c[0].children[0]) && StandsFor(n.body.value, c[0].children[1])
  }

  /** Around what is optional or repeated there is one node more, with the levels of the parent. */
  ghost predicate StandsFor(n: R.Node, r: RawNode)
    decreases r, 1
  {
    match r.info.repetition
    case Some(OPTIONAL) =>
      && n.Optional? && (n.name, n.def_level + 1, n.rep_level) == (r.info.name, r.def_level, r.rep_level)
      && StandsBare(n.body, r)
    case Some(REPEATED) =>
      && n.List? && (n.name, n.def_level + 1, n.rep_level + 1) == (r.info.name, r.def_level, r.rep_level)
      && StandsBare(n.body, r)
    case _ => StandsBare(n, r)
  }

  ghost predicate AllStandFor(ns: seq<R.Node>, c: seq<RawNode>)
    decreases c, 2
  {
    && |ns| == |c|
    && (c == [] || (StandsFor(ns[0], c[0]) && AllStandFor(ns[1..], c[1..])))
  }

  /** The reader builds a node exactly when it stands for the raw one, and gives up when none does. */
  lemma {:induction false} BuildIff(r: RawNode, n: R.Node, def: nat, rep: nat)
    requires Annotated(r, def, rep)
    ensures Build(r) == Some(n) <==> StandsFor(n, r)
    decreases r, 2
  {
    hide StandsBare, BuildUnwrapped;
    if n.Optional? || n.List? {
      BuildBareIff(r, n.body, def, rep);
    }
    BuildBareIff(r, n, def, rep);
  }

  lemma {:induction false} BuildBareIff(r: RawNode, n: R.Node, def: nat, rep: nat)
    requires Annotated(r, def, rep)
    ensures BuildUnwrapped(r) == Some(n) <==> StandsBare(n, r)
    decreases r, 1
  {
    hide BuildMap, BuildList, BuildAll, StandsFor, AllStandFor, AllAnnotated;
    match DetermineNodeType(r.info)
    case MAP_NODE => BuildMapIff(r, n, def, rep);
    case LIST_NODE => BuildListIff(r, n, def, rep);
    case STRUCT_NODE => if n.Struct? { BuildAllIff(r.children, n.fields, r.def_level, r.rep_level); }
    case PRIMITIVE_NODE =>
  }

  lemma {:induction false} BuildListIff(r: RawNode, n: R.Node, def: nat, rep: nat)
    requires Annotated(r, def, rep) && r.info.num_children.Some? && r.info.converted_type == Some(LIST)
    ensures BuildList(r) == Some(n) <==> StandsBare(n, r)
    decreases r, 0
  {
    hide Build, StandsFor, Annotated, RawLeaves;
    if |r.children| == 1 {
      var repeated := r.children[0];
      OnlyChild(r, def, rep);
      if n.List? {
        BuildIff(repeated, n.body, r.def_level, r.rep_level);
        if |repeated.children| == 1 {
          OnlyChild(repeated, r.def_level, r.rep_level);
          BuildIff(repeated.children[0], n.body, repeated.def_level, repeated.rep_level);
        }
      }
    }
  }

  lemma {:induction false} BuildMapIff(r: RawNode, n: R.Node, def: nat, rep: nat)
    requires Annotated(r, def, rep) && DetermineNodeType(r.info) == MAP_NODE
    ensures BuildMap(r) == Some(n) <==> StandsBare(n, r)
    decreases r, 0
  {
    hide Build, StandsFor, Annotated, RawLeaves;
    if |r.children| == 1 && |r.children[0].children| == 2 && n.Map? && n.body.Pair? {
      var repeated := r.children[0];
      OnlyChild(r, def, rep);
      TwoChildren(repeated, r.def_level, r.rep_level);
      BuildIff(repeated.children[0], n.body.key, repeated.def_level, repeated.rep_level);
      BuildIff(repeated.children[1], n.body.value, repeated.def_level, repeated.rep_level);
    }
  }

  lemma {:induction false} BuildAllIff(c: seq<RawNode>, ns: seq<R.Node>, def: nat, rep: nat)
    requires AllAnnotated(c, def, rep)
    ensures BuildAll(c) == Some(ns) <==> AllStandFor(ns, c)
    decreases c, 3
  {
    hide Build, StandsFor, Annotated;
    if c != [] && ns != [] {
      BuildIff(c[0], ns[0], def, rep);
      BuildAllIff(c[1..], ns[1..], def, rep);
      assert ns == [ns[0]] + ns[1..];
    }
  }

  /** What the reader builds below a raw node: the same leaves in the same order, and levels as
      the record readers need them unless a list has the legacy form. */
  ghost predicate Mirrors(n: R.Node, r: RawNode, def: nat, rep: nat) {
    && R.Primitives(n) == LeafNodes(RawLeaves(r)) && !n.Pair?
    && (R.Levelled(n, def, rep) <==> Standard(r))
  }

  lemma {:induction false} BuildIsFaithful(r: RawNode, def: nat, rep: nat)
    requires Annotated(r, def, rep) && Build(r).Some?
    ensures Mirrors(Build(r).value, r, def, rep)
    decreases r, 1
  {
    hide BuildMap, BuildList, BuildAll, AllAnnotated, RawLeavesOf, R.Levelled, Standard;
    match DetermineNodeType(r.info)
    case MAP_NODE =>
      MapIsFaithful(r, def, rep);
      WrapKeeps(r, BuildMap(r).value, def, rep);
    case LIST_NODE =>
      ListIsFaithful(r, def, rep);
      WrapKeeps(r, BuildList(r).value, def, rep);
    case STRUCT_NODE =>
      StructIsFaithful(r, def, rep);
      WrapKeeps(r, R.Struct(r.info.name, BuildAll(r.children).value), def, rep);
    case PRIMITIVE_NODE =>
      LeafIsFaithful(r, def, rep);
      WrapKeeps(r, LeafNode(r), def, rep);
  }

  lemma {:induction false} WrapKeeps(r: RawNode, n: R.Node, def: nat, rep: nat)
    requires Annotated(r, def, rep) && !n.Optional? && !n.Pair?
    ensures var w := Wrap(r, Some(n)).value;
      && R.Primitives(w) == R.Primitives(n) && !w.Pair?
      && (R.Levelled(w, def, rep) <==> R.Levelled(n, r.def_level, r.rep_level))
  {
  }

  lemma {:induction false} LeafIsFaithful(r: RawNode, def: nat, rep: nat)
    requires Annotated(r, def, rep) && DetermineNodeType(r.info) == PRIMITIVE_NODE
    ensures R.Primitives(LeafNode(r)) == LeafNodes(RawLeaves(r))
    ensures R.Levelled(LeafNode(r), r.def_level, r.rep_level) && Standard(r)
  {
  }

  lemma {:induction false} FieldsAreFaithful(children: seq<RawNode>, def: nat, rep: nat)
    requires AllAnnotated(children, def, rep) && BuildAll(children).Some?
    ensures R.PrimitivesOf(BuildAll(children).value) == LeafNodes(RawLeavesOf(children))
    ensures R.AllLevelled(BuildAll(children).value, def, rep) <==> AllStandard(children)
    decreases children, 1
  {
    hide Build, RawLeaves, LeafNode, R.Primitives, R.Levelled, Standard, Annotated;
    if children != [] {
      BuildIsFaithful(children[0], def, rep);
      FieldsAreFaithful(children[1..], def, rep);
      var built := BuildAll(children).value;
      assert built[1..] == BuildAll(children[1..]).value;
      LeafNodesAppend(RawLeaves(children[0]), RawLeavesOf(children[1..]));
    }
  }

  lemma {:induction false} StructIsFaithful(r: RawNode, def: nat, rep: nat)
    requires Annotated(r, def, rep) && BuildAll(r.children).Some? && DetermineNodeType(r.info) == STRUCT_NODE
    ensures var n := R.Struct(r.info.name, BuildAll(r.children).value);
      && R.Primitives(n) == LeafNodes(RawLeaves(r)) && (R.Levelled(n, r.def_level, r.rep_level) <==> Standard(r))
    decreases r, 0
  {
    hide BuildAll, AllAnnotated, RawLeavesOf, R.AllLevelled, AllStandard;
    FieldsAreFaithful(r.children, r.def_level, r.rep_level);
  }

  lemma {:induction false} MapIsFaithful(r: RawNode, def: nat, rep: nat)
    requires Annotated(r, def, rep) && BuildMap(r).Some? && DetermineNodeType(r.info) == MAP_NODE
    ensures var n := BuildMap(r).value;
      && n.Map? && R.Primitives(n) == LeafNodes(RawLeaves(r)) && (R.Levelled(n, r.def_level, r.rep_level) <==> Standard(r))
    decreases r, 0
  {
    hide Annotated, RawLeaves, LeafNodes, Build;
    var repeated := r.children[0];
    OnlyChild(r, def, rep);
    assert repeated.def_level == r.def_level + 1 && repeated.rep_level == r.rep_level + 1 by {
      RepeatedLevels(repeated, r.def_level, r.rep_level);
    }
    TwoChildren(repeated, r.def_level, r.rep_level);
    BuildIsFaithful(repeated.children[0], repeated.def_level, repeated.rep_level);
    BuildIsFaithful(repeated.children[1], repeated.def_level, repeated.rep_level);
    LeafNodesAppend(RawLeaves(repeated.children[0]), RawLeaves(repeated.children[1]));
  }

  lemma {:induction false} RepeatedLevels(r: RawNode, def: nat, rep: nat)
    requires Annotated(r, def, rep) && r.info.RepetitionType() == REPEATED
    ensures r.def_level == def + 1 && r.rep_level == rep + 1
  {
  }

  lemma {:induction false} ListIsFaithful(r: RawNode, def: nat, rep: nat)
    requires Annotated(r, def, rep) && BuildList(r).Some? && DetermineNodeType(r.info) == LIST_NODE
    ensures var n := BuildList(r).value;
      && n.List? && R.Primitives(n) == LeafNodes(RawLeaves(r)) && (R.Levelled(n, r.def_level, r.rep_level) <==> Standard(r))
    decreases r, 0
  {
    hide Annotated, RawLeaves, LeafNodes;
    var repeated := r.children[0];
    OnlyChild(r, def, rep);
    RepeatedLevels(repeated, r.def_level, r.rep_level);
    if Legacy(r) {
      BuildIsFaithful(repeated, r.def_level, r.rep_level);
    } else {
      hide Build;
      OnlyChild(repeated, r.def_level, r.rep_level);
      BuildIsFaithful(repeated.children[0], repeated.def_level, repeated.rep_level);
    }
  }

  // ----- The writer's schema read back -----

  /** The logical tree that a writer's node stands for; `next` leaves come before it. */
  function Logical(node: WriterNode, name: string, def: nat, rep: nat, next: nat): (n: R.Node)
    ensures !n.Pair?
    decreases node, 1
  {
    if node.optional then R.Optional(name, def, rep, LogicalBody(node, name, def + 1, rep, next))
    else LogicalBody(node, name, def, rep, next)
  }

  function LogicalBody(node: WriterNode, name: string, def: nat, rep: nat, next: nat): (n: R.Node)
    ensures !n.Pair? && !n.Optional?
    decreases node, 0
  {
    match node
    case PrimitiveNode(_, _, _, _, _, _) => R.Primitive(name, def, rep, next)
    case ListNode(_, _, element) => R.List(name, def, rep, Logical(element, "element", def + 1, rep + 1, next))
    case MapNode(_, _, key, value) =>
      R.Map(name, def, rep, R.Pair(
        Logical(key, "key", def + 1, rep + 1, next),
        Logical(value, "value", def + 1, rep + 1, next + LeafCount(ShapeOf(key, "key")))))
    case StructNode(_, _, fields) => R.Struct(name, LogicalFields(fields, def, rep, next))
  }

  function LogicalFields(fields: seq<WriterNode>, def: nat, rep: nat, next: nat): (r: seq<R.Node>)
    ensures |r| == |fields|
    decreases fields, 0
  {
    if fields == [] then []
    else
      [Logical(fields[0], fields[0].name, def, rep, next)]
      + LogicalFields(fields[1..], def, rep, next + LeafCount(ShapeOf(fields[0], fields[0].name)))
  }

  /** The reader takes a map only when its key has no children. */
  predicate Liftable(node: WriterNode) {
    match node
    case PrimitiveNode(_, _, _, _, _, _) => true
    case ListNode(_, _, element) => Liftable(element)
    case MapNode(_, _, key, value) => (key.PrimitiveNode? || (key.StructNode? && key.fields == [])) && Liftable(value)
    case StructNode(_, _, fields) => AllLiftable(fields)
  }

  predicate AllLiftable(fields: seq<WriterNode>) {
    fields == [] || (Liftable(fields[0]) && AllLiftable(fields[1..]))
  }

  /** What the reader makes of a writer's node. */
  function Lifted(node: WriterNode, name: string, def: nat, rep: nat, next: nat): Option<R.Node> {
    if Liftable(node) then Some(Logical(node, name, def, rep, next)) else None
  }

  lemma {:induction false} BuildLifts(node: WriterNode, name: string, def: nat, rep: nat, path: seq<string>, next: nat)
    ensures Build(Annotate(ShapeOf(node, name), def, rep, path, next)) == Lifted(node, name, def, rep, next)
    decreases node, 1
  {
    hide BuildAll, BuildMap, BuildList, AnnotateAll, LogicalBody, Liftable;
    match node
    case PrimitiveNode(_, _, _, _, _, _) => BuildLiftsLeaf(node, name, def, rep, path, next);
    case ListNode(_, _, _) => BuildLiftsList(node, name, def, rep, path, next);
    case MapNode(_, _, _, _) => BuildLiftsMap(node, name, def, rep, path, next);
    case StructNode(_, _, _) => BuildLiftsStruct(node, name, def, rep, path, next);
  }

  lemma {:induction false} BuildLiftsLeaf(node: WriterNode, name: string, def: nat, rep: nat, path: seq<string>, next: nat)
    requires node.PrimitiveNode?
    ensures var own := def + (if node.optional then 1 else 0);
      LeafNode(Annotate(ShapeOf(node, name), def, rep, path, next)) == LogicalBody(node, name, own, rep, next) && Liftable(node)
  {
  }

  lemma {:induction false} BuildLiftsStruct(node: WriterNode, name: string, def: nat, rep: nat, path: seq<string>, next: nat)
    requires node.StructNode?
    ensures var own := def + (if node.optional then 1 else 0);
      BuildUnwrapped(Annotate(ShapeOf(node, name), def, rep, path, next))
        == if Liftable(node) then Some(LogicalBody(node, name, own, rep, next)) else None
    decreases node, 0
  {
    hide BuildAll, AnnotateAll;
    BuildLiftsFields(node.fields, def + (if node.optional then 1 else 0), rep, path + [name], next);
  }

  lemma {:induction false} AnnotatedGroup(
    name: string, optional: bool, converted: ConvertedType, repeated: SchemaElement, children: seq<Shape>,
    def: nat, rep: nat, path: seq<string>, next: nat)
    requires repeated.num_children.Some? && repeated.repetition == Some(REPEATED)
    ensures var own := def + (if optional then 1 else 0);
      var r := Annotate(Shape(Group(name, RepetitionOf(optional), 1, Some(converted)), [Shape(repeated, children)]), def, rep, path, next);
      && |r.children| == 1 && r.children[0].info == repeated && r.info.name == name
      && r.info.RepetitionType() != REPEATED && r.def_level == own && r.rep_level == rep
      && r.children[0].children == AnnotateAll(children, own + 1, rep + 1, path + [name] + [repeated.name], next)
  {
    OnlyLeaf(Shape(repeated, children), def + (if optional then 1 else 0), rep, path + [name], next);
  }

  lemma {:induction false} BuildLiftsList(node: WriterNode, name: string, def: nat, rep: nat, path: seq<string>, next: nat)
    requires node.ListNode?
    ensures var own := def + (if node.optional then 1 else 0);
      BuildList(Annotate(ShapeOf(node, name), def, rep, path, next))
        == if Liftable(node) then Some(LogicalBody(node, name, own, rep, next)) else None
    decreases node, 0
  {
    hide Build, Annotate, AnnotateAll;
    var own, p := def + (if node.optional then 1 else 0), path + [name];
    var inner := ShapeOf(node.element, "element");
    AnnotatedGroup(name, node.optional, LIST, Group("list", Some(REPEATED), 1, None), [inner], def, rep, path, next);
    OnlyLeaf(inner, own + 1, rep + 1, p + ["list"], next);
    assert |name + "_tuple"| > |"list"|;
    BuildLifts(node.element, "element", own + 1, rep + 1, p + ["list"], next);
  }

  lemma {:induction false} BuildLiftsMap(node: WriterNode, name: string, def: nat, rep: nat, path: seq<string>, next: nat)
    requires node.MapNode?
    ensures var own := def + (if node.optional then 1 else 0);
      BuildMap(Annotate(ShapeOf(node, name), def, rep, path, next))
        == if Liftable(node) then Some(LogicalBody(node, name, own, rep, next)) else None
    decreases node, 0
  {
    hide Build, Annotate, AnnotateAll;
    var own := def + (if node.optional then 1 else 0);
    var q := path + [name] + ["key_value"];
    var k, v := ShapeOf(node.key, "key"), ShapeOf(node.value, "value");
    AnnotatedGroup(name, node.optional, MAP, Group("key_value", Some(REPEATED), 2, None), [k, v], def, rep, path, next);
    TwoLeaves(k, v, own + 1, rep + 1, q, next);
    Childless(node.key, own + 1, rep + 1, q, next);
    BuildLifts(node.key, "key", own + 1, rep + 1, q, next);
    BuildLifts(node.value, "value", own + 1, rep + 1, q, next + LeafCount(k));
  }

  lemma {:induction false} Childless(key: WriterNode, def: nat, rep: nat, path: seq<string>, next: nat)
    ensures Annotate(ShapeOf(key, "key"), def, rep, path, next).children == []
      <==> key.PrimitiveNode? || (key.StructNode? && key.fields == [])
    ensures Annotate(ShapeOf(key, "key"), def, rep, path, next).children == [] ==> Liftable(key)
  {
  }

  lemma {:induction false} BuildLiftsFields(fields: seq<WriterNode>, def: nat, rep: nat, path: seq<string>, next: nat)
    ensures BuildAll(AnnotateAll(ShapesOf(fields), def, rep, path, next))
      == if AllLiftable(fields) then Some(LogicalFields(fields, def, rep, next)) else None
    decreases fields, 1
  {
    hide Build, Annotate, ShapeOf, LeafCount, Liftable, Logical;
    if fields != [] {
      var head, tail := ShapeOf(fields[0], fields[0].name), ShapesOf(fields[1..]);
      BuildLifts(fields[0], fields[0].name, def, rep, path, next);
      BuildLiftsFields(fields[1..], def, rep, path, next + LeafCount(head));
      assert ([head] + tail)[1..] == tail;
      var a, b := Annotate(head, def, rep, path, next), AnnotateAll(tail, def, rep, path, next + LeafCount(head));
      assert ([a] + b)[1..] == b;
    }
  }

  /** Without empty structs every column has a leaf to tell its levels. */
  predicate Solid(node: WriterNode) {
    match node
    case PrimitiveNode(_, _, _, _, _, _) => true
    case ListNode(_, _, element) => Solid(element)
    case MapNode(_, _, key, value) => Solid(key) && Solid(value)
    case StructNode(_, _, fields) => fields != [] && AllSolid(fields)
  }

  predicate AllSolid(fields: seq<WriterNode>) {
    fields == [] || (Solid(fields[0]) && AllSolid(fields[1..]))
  }

  lemma {:induction false} SolidIsLed(node: WriterNode, name: string, def: nat, rep: nat, next: nat)
    requires Solid(node)
    ensures R.HasLead(Logical(node, name, def, rep, next)) && R.Led(Logical(node, name, def, rep, next))
    decreases node
  {
    var own := def + (if node.optional then 1 else 0);
    match node
    case PrimitiveNode(_, _, _, _, _, _) =>
    case ListNode(_, _, element) => SolidIsLed(element, "element", own + 1, rep + 1, next);
    case MapNode(_, _, key, value) =>
      SolidIsLed(key, "key", own + 1, rep + 1, next);
      SolidIsLed(value, "value", own + 1, rep + 1, next + LeafCount(ShapeOf(key, "key")));
    case StructNode(_, _, fields) => SolidFieldsAreLed(fields, own, rep, next);
  }

  lemma {:induction false} SolidFieldsAreLed(fields: seq<WriterNode>, def: nat, rep: nat, next: nat)
    requires AllSolid(fields)
    ensures R.AllLed(LogicalFields(fields, def, rep, next))
    ensures fields != [] ==> R.HasLead(LogicalFields(fields, def, rep, next)[0])
    decreases fields
  {
    hide Logical, Solid, R.Led, R.HasLead;
    if fields != [] {
      var after := next + LeafCount(ShapeOf(fields[0], fields[0].name));
      SolidIsLed(fields[0], fields[0].name, def, rep, next);
      SolidFieldsAreLed(fields[1..], def, rep, after);
      var a, b := Logical(fields[0], fields[0].name, def, rep, next), LogicalFields(fields[1..], def, rep, after);
      assert ([a] + b)[1..] == b;
    }
  }

  // ----- The two sides together -----

  lemma {:induction false} AllLogicalLevelled(fields: seq<WriterNode>, def: nat, rep: nat, next: nat)
    ensures R.AllLevelled(LogicalFields(fields, def, rep, next), def, rep)
    decreases fields, 1
  {
    hide Logical, R.Levelled;
    if fields != [] {
      var after := next + LeafCount(ShapeOf(fields[0], fields[0].name));
      LogicalLevelled(fields[0], fields[0].name, def, rep, next);
      AllLogicalLevelled(fields[1..], def, rep, after);
      var a, b := Logical(fields[0], fields[0].name, def, rep, next), LogicalFields(fields[1..], def, rep, after);
      assert ([a] + b)[1..] == b;
    }
  }

  lemma {:induction false} LogicalLevelled(node: WriterNode, name: string, def: nat, rep: nat, next: nat)
    ensures R.Levelled(Logical(node, name, def, rep, next), def, rep)
    decreases node, 0
  {
    var own := def + (if node.optional then 1 else 0);
    match node
    case PrimitiveNode(_, _, _, _, _, _) =>
    case ListNode(_, _, element) => LogicalLevelled(element, "element", own + 1, rep + 1, next);
    case MapNode(_, _, key, value) =>
      LogicalLevelled(key, "key", own + 1, rep + 1, next);
      LogicalLevelled(value, "value", own + 1, rep + 1, next + LeafCount(ShapeOf(key, "key")));
    case StructNode(_, _, fields) => AllLogicalLevelled(fields, own, rep, next);
  }

  /** The primitives are columns 0, 1, ... with the levels that the column writers have. */
  ghost predicate HaveLevels(prims: seq<R.Node>, levels: seq<(nat, nat)>) {
    && |prims| == |levels|
    && forall i :: 0 <= i < |prims| ==>
      && prims[i].Primitive? && prims[i].column_index == i
      && (prims[i].def_level, prims[i].rep_level) == levels[i]
  }

  /** Reading the schema that a writer has flattened gives the writer's tree: its lists, maps and
      structs, with an optional node around whatever is optional, and one primitive per column
      writer, with that writer's levels. The reader gives up exactly on maps whose key has children. */
  lemma {:induction false} SchemaReadsBack(fields: seq<WriterNode>, rest: seq<SchemaElement>)
    ensures var tree := LogicalFields(fields, 0, 0, 0);
      && ReadSchema(Preorder(RootShape(fields)) + rest) == (if AllLiftable(fields) then Some(tree) else None)
      && R.AllLevelled(tree, 0, 0)
      && (AllLiftable(fields) ==> HaveLevels(R.PrimitivesOf(tree), WriterLevelsOf(fields, 0, 0)))
  {
    hide BuildAll, Parse, Preorder, AnnotateAll, ShapesOf, LogicalFields, AllLiftable, R.AllLevelled, R.PrimitivesOf,
      AllCounted;
    var root := RootShape(fields);
    ShapesOfAreCounted(fields);
    ParseOfPreorder(root, rest);
    BuildLiftsFields(fields, 0, 0, [], 0);
    AllLogicalLevelled(fields, 0, 0, 0);
    if AllLiftable(fields) {
      AnnotateAllAnnotates(ShapesOf(fields), 0, 0, [], 0);
      FieldsAreFaithful(AnnotateRoot(root).children, 0, 0);
      FieldColumnsAgree(fields, 0, 0, [], 0);
      NodesHaveLevels(RawLeavesOf(AnnotateRoot(root).children), WriterLeavesOf(fields), WriterLevelsOf(fields, 0, 0),
        LeafPathsOf(fields, []));
    }
  }

  /** The leaves of the raw tree that a reader recovers from a flat schema. */
  function RawColumns(flat: seq<SchemaElement>): seq<RawNode>
    requires Parse(flat).Parsed?
  {
    RawLeavesOf(AnnotateRoot(Parse(flat).shape).children)
  }

  /** They are the writer's columns: its types, levels and paths, in its order. */
  lemma {:induction false} RawColumnsReadBack(fields: seq<WriterNode>)
    ensures var flat := Preorder(RootShape(fields));
      && Parse(flat).Parsed?
      && AreColumns(RawColumns(flat), WriterLeavesOf(fields), WriterLevelsOf(fields, 0, 0), LeafPathsOf(fields, []), 0)
  {
    hide Parse, Preorder, AnnotateAll, ShapesOf, AllCounted, RawLeavesOf, AreColumns, WriterLeavesOf, WriterLevelsOf, LeafPathsOf;
    var root := RootShape(fields);
    ShapesOfAreCounted(fields);
    ParseOfPreorder(root, []);
    assert Preorder(root) + [] == Preorder(root);
    FieldColumnsAgree(fields, 0, 0, [], 0);
  }

  lemma {:induction false} NodesHaveLevels(
    leaves: seq<RawNode>, writers: seq<WriterNode>, levels: seq<(nat, nat)>, paths: seq<seq<string>>)
    requires AreColumns(leaves, writers, levels, paths, 0)
    ensures HaveLevels(LeafNodes(leaves), levels)
  {
  }

  /** The fields read from any flat schema are exactly those that stand for its tree by the rules,
      and there are none when no fields do. */
  lemma {:induction false} ReadSchemaIff(flat: seq<SchemaElement>, fields: seq<R.Node>)
    requires Parse(flat).Parsed?
    ensures ReadSchema(flat) == Some(fields) <==> AllStandFor(fields, AnnotateRoot(Parse(flat).shape).children)
  {
    hide Parse, BuildAll, AnnotateAll, AllStandFor, Preorder;
    PreorderOfParse(flat);
    var s := Parse(flat).shape;
    var root := AnnotateRoot(s);
    AnnotateAllAnnotates(s.children, root.def_level, root.rep_level, [], 0);
    BuildAllIff(root.children, fields, root.def_level, root.rep_level);
  }

  /** The levels count the optional and repeated nodes, from those of the root on, exactly when no
      list has the legacy form. The root of a proper file is required and has levels of 0. */
  lemma {:induction false} LevelledIffStandard(flat: seq<SchemaElement>)
    requires ReadSchema(flat).Some?
    ensures var root := AnnotateRoot(Parse(flat).shape);
      && (R.AllLevelled(ReadSchema(flat).value, root.def_level, root.rep_level) <==> AllStandard(root.children))
      && (root.info.RepetitionType() == REQUIRED ==> root.def_level == root.rep_level == 0)
  {
    hide Parse, BuildAll, AnnotateAll, R.AllLevelled, AllStandard, Preorder;
    PreorderOfParse(flat);
    var s := Parse(flat).shape;
    var root := AnnotateRoot(s);
    AnnotateAllAnnotates(s.children, root.def_level, root.rep_level, [], 0);
    FieldsAreFaithful(root.children, root.def_level, root.rep_level);
  }

  /** A list in the legacy form is read as a list of lists with the levels of one. */
  lemma {:induction false} LegacyListIsDoubled(r: RawNode, def: nat, rep: nat)
    requires Annotated(r, def, rep) && BuildList(r).Some? && Legacy(r)
    ensures var outer := BuildList(r).value;
      && outer.List? && outer.body.List?
      && outer.body.def_level == outer.def_level == r.def_level && outer.body.rep_level == outer.rep_level == r.rep_level
  {
    hide RawLeaves;
    OnlyChild(r, def, rep);
    RepeatedLevels(r.children[0], r.def_level, r.rep_level);
  }

  /** Records written under a schema without empty structs can be read back under it. */
  lemma {:induction false} SolidIsReadable(fields: seq<WriterNode>)
    requires fields != [] && AllSolid(fields)
    ensures var tree := LogicalFields(fields, 0, 0, 0);
      tree != [] && R.HasLead(tree[0]) && R.AllLed(tree)
  {
    SolidFieldsAreLed(fields, 0, 0, 0);
  }
}
