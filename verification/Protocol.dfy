/**
The protocol of a record consumer, stated without what the readers do: which calls may follow one
another. Readers keep the nesting of calls on any columns; and the calls that spell records are
those of a consumer that knows the schema.
 */
module Protocols {
  import opened Options
  import opened Bits
  import opened Records
  import R = Records
  import opened Assembly
  import L = Lossless

  // ----- Nesting -----

  /** What has been started and not ended yet. */
  datatype Frame = IN_RECORD | IN_STRUCT | IN_LIST | IN_MAP

  predicate Within(stack: seq<Frame>, frame: Frame) {
    stack != [] && stack[|stack| - 1] == frame
  }

  /** The frames after a call; nothing if the call may not come there. */
  function Step(stack: seq<Frame>, e: Event): Option<seq<Frame>> {
    match e
    case StartRecord => if stack == [] then Some([IN_RECORD]) else None
    case StartColumn(_) => if Within(stack, IN_RECORD) then Some(stack) else None
    case EndRecord => if Within(stack, IN_RECORD) then Some(stack[..|stack| - 1]) else None
    case StartStruct => if stack != [] then Some(stack + [IN_STRUCT]) else None
    case StartField(_) => if Within(stack, IN_STRUCT) then Some(stack) else None
    case EndStruct => if Within(stack, IN_STRUCT) then Some(stack[..|stack| - 1]) else None
    case StartList => if stack != [] then Some(stack + [IN_LIST]) else None
    case SeparateListValues => if Within(stack, IN_LIST) then Some(stack) else None
    case EndList => if Within(stack, IN_LIST) then Some(stack[..|stack| - 1]) else None
    case StartMap => if stack != [] then Some(stack + [IN_MAP]) else None
    case SeparateKeyValue => if Within(stack, IN_MAP) then Some(stack) else None
    case SeparateMapValues => if Within(stack, IN_MAP) then Some(stack) else None
    case EndMap => if Within(stack, IN_MAP) then Some(stack[..|stack| - 1]) else None
    case AppendNull => if stack != [] then Some(stack) else None
    case AppendValue(_) => if stack != [] then Some(stack) else None
  }

  function Steps(stack: seq<Frame>, events: seq<Event>): Option<seq<Frame>>
    decreases |events|
  {
    if events == [] then Some(stack)
    else
      var next := Step(stack, events[0]);
      if next.None? then None else Steps(next.value, events[1..])
  }

  /** The calls leave the frames as they were. */
  predicate Closed(stack: seq<Frame>, events: seq<Event>) {
    Steps(stack, events) == Some(stack)
  }

  lemma {:induction false} StepsBoth(stack: seq<Frame>, a: seq<Event>, b: seq<Event>)
    ensures Steps(stack, a + b) == if Steps(stack, a).None? then None else Steps(Steps(stack, a).value, b)
    decreases |a|
  {
    hide Step;
    if a == [] {
      assert a + b == b;
    } else {
      assert (a + b)[0] == a[0] && (a + b)[1..] == a[1..] + b;
      if Step(stack, a[0]).Some? {
        StepsBoth(Step(stack, a[0]).value, a[1..], b);
      }
    }
  }

  lemma {:induction false} ClosedBoth(stack: seq<Frame>, a: seq<Event>, b: seq<Event>)
    requires Closed(stack, a) && Closed(stack, b)
    ensures Closed(stack, a + b)
  {
    StepsBoth(stack, a, b);
  }

  lemma {:induction false} ClosedOne(stack: seq<Frame>, e: Event)
    requires Step(stack, e) == Some(stack)
    ensures Closed(stack, [e]) && Closed(stack, [])
  {
    assert [e][1..] == [];
  }

  /** Calls between a start and its end. */
  lemma {:induction false} ClosedFrame(stack: seq<Frame>, frame: Frame, start: Event, events: seq<Event>, end: Event)
    requires Step(stack, start) == Some(stack + [frame]) && Closed(stack + [frame], events)
    requires Step(stack + [frame], end) == Some(stack)
    ensures Closed(stack, [start] + events + [end])
  {
    hide Step;
    var inner := stack + [frame];
    StepsBoth(inner, events, [end]);
    assert [end][1..] == [] && Steps(inner, [end]) == Some(stack);
    var all := [start] + events + [end];
    assert all[0] == start && all[1..] == events + [end];
  }

  /** The frame in which the items of a node stand. */
  function FrameOf(node: Node): Frame {
    if node.Map? then IN_MAP else IN_LIST
  }

  /** Whatever the columns of a levelled node hold, its reader closes what it starts. */
  lemma {:induction false} ReadFieldNested(node: Node, cols: Columns, stack: seq<Frame>, d: nat, l: nat)
    requires Levelled(node, d, l) && |cols| == Leaves(node) && stack != [] && (node.Pair? ==> Within(stack, IN_MAP))
    requires ReadField(node, cols).Read?
    ensures Closed(stack, ReadField(node, cols).events)
    decreases node, 3
  {
    hide Steps, CurrentLevels, SkipField, ReadMore, ReadItems, Advanced;
    match node
    case Primitive(_, _, _, _) =>
      ClosedOne(stack, AppendValue([]));
      if cols[0][0].value.Some? {
        ClosedOne(stack, AppendValue(cols[0][0].value.value));
      }
    case Optional(_, def, _, body) =>
      if CurrentLevels(body, cols).def > def {
        ReadFieldNested(body, cols, stack, d + 1, l);
      } else {
        ClosedOne(stack, AppendNull);
        assert [AppendNull] + [] + [] == [AppendNull];
      }
    case Pair(key, value) =>
      var n := Leaves(key);
      ReadFieldNested(key, cols[..n], stack, d, l);
      ReadFieldNested(value, cols[n..], stack, d, l);
      ClosedOne(stack, SeparateKeyValue);
      var k, v := ReadField(key, cols[..n]).events, ReadField(value, cols[n..]).events;
      assert [] + k == k;
      ClosedBoth(stack, k, [SeparateKeyValue]);
      ClosedBoth(stack, k + [SeparateKeyValue], v);
    case Struct(_, fields) =>
      ReadFieldsNested(fields, cols, stack + [IN_STRUCT], d, l);
      ClosedFrame(stack, IN_STRUCT, StartStruct, ReadFields(fields, cols).events, EndStruct);
    case _ => ReadRepeatedNested(node, cols, stack, d, l);
  }

  lemma {:induction false} ReadRepeatedNested(node: Node, cols: Columns, stack: seq<Frame>, d: nat, l: nat)
    requires node.Repeated() && Levelled(node, d, l) && |cols| == Leaves(node) && stack != [] && ReadField(node, cols).Read?
    ensures Closed(stack, ReadField(node, cols).events)
    decreases node, 2
  {
    hide ReadItems, Closed, Steps, CurrentLevels, SkipField, Advanced;
    var inner := stack + [FrameOf(node)];
    var start, end := if node.Map? then StartMap else StartList, if node.Map? then EndMap else EndList;
    if CurrentLevels(node.body, cols).def > node.def_level {
      ReadItemsNested(node, cols, inner, d, l);
      ClosedFrame(stack, FrameOf(node), start, ReadItems(node, cols).events, end);
    } else {
      ClosedOne(inner, AppendNull);
      ClosedFrame(stack, FrameOf(node), start, [], end);
    }
  }

  lemma {:induction false} ReadItemsNested(node: Node, cols: Columns, inner: seq<Frame>, d: nat, l: nat)
    requires node.Repeated() && Levelled(node, d, l) && |cols| == Leaves(node) && Within(inner, FrameOf(node))
    requires ReadItems(node, cols).Read?
    ensures Closed(inner, ReadItems(node, cols).events)
    decreases node, 1
  {
    hide Steps, CurrentLevels, SkipField, ReadMore, Closed, ReadField;
    var o := ReadField(node.body, cols);
    ReadFieldNested(node.body, cols, inner, d + 1, l + 1);
    ReadMoreNested(node, o.rest, inner, d, l);
    ClosedBoth(inner, o.events, ReadMore(node, o.rest).events);
    assert o.events + ReadMore(node, o.rest).events + [] == o.events + ReadMore(node, o.rest).events;
  }

  lemma {:induction false} ReadMoreNested(node: Node, cols: Columns, stack: seq<Frame>, d: nat, l: nat)
    requires node.Repeated() && Levelled(node, d, l) && |cols| == Leaves(node) && Within(stack, FrameOf(node))
    requires ReadMore(node, cols).Read?
    ensures Closed(stack, ReadMore(node, cols).events)
    decreases node, 0, if cols == [] then 0 else |cols[0]|
  {
    hide Steps, CurrentLevels, SkipField, ReadField;
    if CurrentLevels(node.body, cols).rep > node.rep_level {
      var o := ReadField(node.body, cols);
      ReadFieldNested(node.body, cols, stack, d + 1, l + 1);
      ReadMoreNested(node, o.rest, stack, d, l);
      var e := if node.Map? then SeparateMapValues else SeparateListValues;
      ClosedOne(stack, e);
      ClosedBoth(stack, [e], o.events);
      ClosedBoth(stack, [e] + o.events, ReadMore(node, o.rest).events);
      assert [e] + o.events + ReadMore(node, o.rest).events + [] == [e] + o.events + ReadMore(node, o.rest).events;
    } else {
      ClosedOne(stack, AppendNull);
    }
  }

  lemma {:induction false} ReadFieldsNested(fields: seq<Node>, cols: Columns, stack: seq<Frame>, d: nat, l: nat)
    requires AllLevelled(fields, d, l) && |cols| == LeavesOf(fields) && Within(stack, IN_STRUCT) && ReadFields(fields, cols).Read?
    ensures Closed(stack, ReadFields(fields, cols).events)
    decreases fields, 2
  {
    hide Steps, ReadField, Levelled, Leaves;
    if fields == [] {
      ClosedOne(stack, AppendNull);
    } else {
      var n := Leaves(fields[0]);
      var name, first, others :=
        StartField(fields[0].name), ReadField(fields[0], cols[..n]).events, ReadFields(fields[1..], cols[n..]).events;
      ReadFieldNested(fields[0], cols[..n], stack, d, l);
      ReadFieldsNested(fields[1..], cols[n..], stack, d, l);
      ClosedOne(stack, name);
      ClosedBoth(stack, [name], first);
      ClosedBoth(stack, [name] + first, others);
      assert [name] + first + [] + others == [name] + first + others;
    }
  }

  lemma {:induction false} ReadColumnNested(node: Node, cols: Columns, stack: seq<Frame>)
    requires Levelled(node, 0, 0) && !node.Pair? && |cols| == Leaves(node) && stack != [] && ReadColumn(node, cols).Read?
    ensures Closed(stack, ReadColumn(node, cols).events)
  {
    hide Steps, ReadField, CurrentLevels, SkipField;
    if !node.Optional? || CurrentLevels(node, cols).def > 0 {
      ReadFieldNested(node, cols, stack, 0, 0);
    } else {
      ClosedOne(stack, AppendNull);
      assert [AppendNull] + [] + [] == [AppendNull];
    }
  }

  lemma {:induction false} ReadColumnsNested(fields: seq<Node>, cols: Columns, stack: seq<Frame>)
    requires AllLevelled(fields, 0, 0) && |cols| == LeavesOf(fields) && Within(stack, IN_RECORD) && ReadColumns(fields, cols).Read?
    ensures Closed(stack, ReadColumns(fields, cols).events)
    decreases fields
  {
    hide Steps, ReadColumn, Levelled, Leaves;
    if fields == [] {
      ClosedOne(stack, AppendNull);
    } else {
      var n := Leaves(fields[0]);
      var name, first, others :=
        StartColumn(fields[0].name), ReadColumn(fields[0], cols[..n]).events, ReadColumns(fields[1..], cols[n..]).events;
      ReadColumnNested(fields[0], cols[..n], stack);
      ReadColumnsNested(fields[1..], cols[n..], stack);
      ClosedOne(stack, name);
      ClosedBoth(stack, [name], first);
      ClosedBoth(stack, [name] + first, others);
      assert [name] + first + [] + others == [name] + first + others;
    }
  }

  /** Whatever the columns of a levelled schema hold: if the readers do not fail, then every call
      they make may come where it comes, and in the end nothing is left open. */
  lemma {:induction false} ReadAllNested(fields: seq<Node>, cols: Columns)
    requires AllLevelled(fields, 0, 0) && |cols| == LeavesOf(fields) && ReadAll(fields, cols).Read?
    ensures Closed([], ReadAll(fields, cols).events)
    decreases if cols == [] then 0 else |cols[0]|
  {
    hide Steps, ReadColumns, AllLevelled, FirstLevels;
    if FirstLevels(fields, cols).def < 0 {
      NothingClosed();
    } else {
      var o := ReadOne(fields, cols);
      ReadColumnsNested(fields, cols, [IN_RECORD]);
      assert [] + [IN_RECORD] == [IN_RECORD];
      ClosedFrame([], IN_RECORD, StartRecord, ReadColumns(fields, cols).events, EndRecord);
      ReadAllNested(fields, o.rest);
      ClosedBoth([], o.events, ReadAll(fields, o.rest).events);
      assert o.events + ReadAll(fields, o.rest).events + [] == o.events + ReadAll(fields, o.rest).events;
    }
  }

  lemma {:induction false} NothingClosed()
    ensures Closed([], [])
  {
  }

  // ----- The calls that a schema allows -----

  /** What may come next for a consumer that knows the schema: a value, the columns of a record or
      the fields of a struct that are still to come, the first or a later item of a list, the key
      of the first or a later entry of a map, the value behind a key, or records. */
  datatype Expected =
    | AValue(node: Node)
    | Columns(fields: seq<Node>) | Fields(fields: seq<Node>)
    | FirstItem(item: Node) | LaterItem(item: Node)
    | FirstKey(key: Node, value: Node) | BehindKey(key: Node, value: Node) | LaterKey(key: Node, value: Node)
    | AnyRecords(fields: seq<Node>)

  /** A value of the node begins with the call; what is expected then, before `rest`. */
  function Begin(node: Node, e: Event, rest: seq<Expected>): Option<seq<Expected>> {
    match node
    case Primitive(_, _, _, _) => if e.AppendValue? then Some(rest) else None
    case Optional(_, _, _, body) => if e == AppendNull then Some(rest) else Begin(body, e, rest)
    case List(_, _, _, body) => if e == StartList then Some([FirstItem(body)] + rest) else None
    case Map(_, _, _, body) => if e == StartMap && body.Pair? then Some([FirstKey(body.key, body.value)] + rest) else None
    case Struct(_, fields) => if e == StartStruct then Some([Fields(fields)] + rest) else None
    case Pair(_, _) => None
  }

  /** The fields of a record or a struct are announced by name, in order. */
  predicate Named(e: Event, fields: seq<Node>, column: bool) {
    && fields != [] && !fields[0].Pair?
    && e == if column then StartColumn(fields[0].name) else StartField(fields[0].name)
  }

  /** What is expected after a call; nothing if the call is not. The first one comes first. */
  function Next(expected: seq<Expected>, e: Event): Option<seq<Expected>> {
    if expected == [] then None
    else
      var rest := expected[1..];
      match expected[0]
      case AValue(node) => Begin(node, e, rest)
      case Columns(fields) =>
        if Named(e, fields, true) then Some([AValue(fields[0])] + ([Columns(fields[1..])] + rest))
        else if fields == [] && e == EndRecord then Some(rest) else None
      case Fields(fields) =>
        if Named(e, fields, false) then Some([AValue(fields[0])] + ([Fields(fields[1..])] + rest))
        else if fields == [] && e == EndStruct then Some(rest) else None
      case FirstItem(item) => if e == EndList then Some(rest) else Begin(item, e, [LaterItem(item)] + rest)
      case LaterItem(item) =>
        if e == EndList then Some(rest)
        else if e == SeparateListValues then Some([AValue(item)] + ([LaterItem(item)] + rest)) else None
      case FirstKey(key, value) => if e == EndMap then Some(rest) else Begin(key, e, [BehindKey(key, value)] + rest)
      case BehindKey(key, value) =>
        if e == SeparateKeyValue then Some([AValue(value)] + ([LaterKey(key, value)] + rest)) else None
      case LaterKey(key, value) =>
        if e == EndMap then Some(rest)
        else if e == SeparateMapValues then Some([AValue(key)] + ([BehindKey(key, value)] + rest)) else None
      case AnyRecords(fields) => if e == StartRecord then Some([Columns(fields)] + expected) else None
  }

  function After(expected: seq<Expected>, events: seq<Event>): Option<seq<Expected>>
    decreases |events|
  {
    if events == [] then Some(expected)
    else
      var next := Next(expected, events[0]);
      if next.None? then None else After(next.value, events[1..])
  }

  lemma {:induction false} AfterBoth(expected: seq<Expected>, a: seq<Event>, b: seq<Event>)
    ensures After(expected, a + b) == if After(expected, a).None? then None else After(After(expected, a).value, b)
    decreases |a|
  {
    hide Next;
    if a == [] {
      assert a + b == b;
    } else {
      assert (a + b)[0] == a[0] && (a + b)[1..] == a[1..] + b;
      if Next(expected, a[0]).Some? {
        AfterBoth(Next(expected, a[0]).value, a[1..], b);
      }
    }
  }

  lemma {:induction false} AfterOne(expected: seq<Expected>, e: Event, events: seq<Event>)
    requires Next(expected, e).Some?
    ensures After(expected, [e]) == Next(expected, e)
    ensures After(expected, [e] + events) == After(Next(expected, e).value, events)
  {
    hide Next;
    assert ([e] + events)[1..] == events && [e][1..] == [];
  }

  /** The first of the calls begins the value as if it had been expected alone. */
  lemma {:induction false} BeginsWith(node: Node, events: seq<Event>, rest: seq<Expected>)
    requires events != []
    ensures After([AValue(node)] + rest, events) ==
      if Begin(node, events[0], rest).None? then None else After(Begin(node, events[0], rest).value, events[1..])
  {
    hide Begin;
    assert ([AValue(node)] + rest)[1..] == rest;
  }

  /** The calls that spell a value are expected where a value is, and nothing else is after them. */
  lemma {:induction false} SpellExpected(node: Node, v: Value, rest: seq<Expected>, d: nat, l: nat)
    requires Conforms(node, v) && Levelled(node, d, l) && !node.Pair?
    ensures After([AValue(node)] + rest, Spell(node, v)) == Some(rest)
    decreases node, 3, 0
  {
    hide After, Next, SpellItems, SpellFields;
    var expected := [AValue(node)] + rest;
    assert expected[1..] == rest;
    match node
    case Primitive(_, _, _, _) => ValueExpected(node, v, rest);
    case Optional(_, _, _, body) =>
      if v.Null? {
        NullExpected(node, rest);
      } else {
        SpellExpected(body, v.value, rest, d + 1, l);
        PresentExpected(node, Spell(body, v.value), rest);
      }
    case List(_, _, _, body) => ListExpected(node, v, rest, d, l);
    case Map(_, _, _, body) => MapExpected(node, v, rest, d, l);
    case Struct(_, fields) => StructExpected(node, v, rest, d, l);
  }

  lemma {:induction false} ValueExpected(node: Node, v: Value, rest: seq<Expected>)
    requires node.Primitive? && v.Atomic?
    ensures After([AValue(node)] + rest, [AppendValue(v.atom)]) == Some(rest)
  {
    BeginsWith(node, [AppendValue(v.atom)], rest);
  }

  lemma {:induction false} NullExpected(node: Node, rest: seq<Expected>)
    requires node.Optional?
    ensures After([AValue(node)] + rest, [AppendNull]) == Some(rest)
  {
    BeginsWith(node, [AppendNull], rest);
  }

  lemma {:induction false} PresentExpected(node: Node, events: seq<Event>, rest: seq<Expected>)
    requires node.Optional? && !node.body.Optional? && After([AValue(node.body)] + rest, events) == Some(rest)
    ensures After([AValue(node)] + rest, events) == Some(rest)
  {
    assert |[AValue(node.body)] + rest| == |rest| + 1;
    if events != [] {
      BeginsWith(node.body, events, rest);
      BeginsWith(node, events, rest);
    }
  }

  lemma {:induction false} ListExpected(node: Node, v: Value, rest: seq<Expected>, d: nat, l: nat)
    requires node.List? && Conforms(node, v) && Levelled(node, d, l)
    ensures After([AValue(node)] + rest, [StartList] + SpellItems(node, v.items) + [EndList]) == Some(rest)
    decreases node, 2, 0
  {
    hide After, SpellItems;
    var item := node.body;
    var start := [FirstItem(item)] + rest;
    assert ([AValue(node)] + rest)[1..] == rest && start[1..] == rest && ([LaterItem(item)] + rest)[1..] == rest;
    Associate([StartList], SpellItems(node, v.items), [EndList]);
    AfterOne([AValue(node)] + rest, StartList, SpellItems(node, v.items) + [EndList]);
    if v.items == [] {
      NoItems(node);
      assert [] + [EndList] == [EndList];
      AfterOne(start, EndList, []);
    } else {
      ItemsExpected(node, v.items, rest, d, l);
      AfterBoth(start, SpellItems(node, v.items), [EndList]);
      AfterOne([LaterItem(item)] + rest, EndList, []);
    }
  }

  lemma {:induction false} NoItems(node: Node)
    requires node.Repeated()
    ensures SpellItems(node, []) == []
  {
  }

  lemma {:induction false} ItemsExpected(node: Node, vs: seq<Value>, rest: seq<Expected>, d: nat, l: nat)
    requires node.List? && vs != [] && EachConforms(node.body, vs) && Levelled(node, d, l)
    ensures After([FirstItem(node.body)] + rest, SpellItems(node, vs)) == Some([LaterItem(node.body)] + rest)
    decreases node, 1, 0
  {
    hide After, SpellMore, Spell;
    var item, later := node.body, [LaterItem(node.body)] + rest;
    SpellExpected(item, vs[0], later, d + 1, l + 1);
    FirstIsValue(item, vs[0], FirstItem(item), later, rest);
    MoreItemsExpected(node, vs[1..], rest, d, l);
    AfterBoth([FirstItem(item)] + rest, Spell(item, vs[0]), SpellMore(node, vs[1..]));
  }

  /** A first item or key is taken as a value is. */
  lemma {:induction false} FirstIsValue(node: Node, v: Value, first: Expected, later: seq<Expected>, rest: seq<Expected>)
    requires Conforms(node, v)
    requires (first == FirstItem(node) && later == [LaterItem(node)] + rest)
      || (first.FirstKey? && first.key == node && later == [BehindKey(node, first.value)] + rest)
    ensures After([first] + rest, Spell(node, v)) == After([AValue(node)] + later, Spell(node, v))
  {
    hide Begin, Spell, Conforms;
    L.SpellOpens(node, v);
    BeginsWith(node, Spell(node, v), later);
    assert ([first] + rest)[1..] == rest;
  }

  lemma {:induction false} MoreItemsExpected(node: Node, vs: seq<Value>, rest: seq<Expected>, d: nat, l: nat)
    requires node.List? && EachConforms(node.body, vs) && Levelled(node, d, l)
    ensures After([LaterItem(node.body)] + rest, SpellMore(node, vs)) == Some([LaterItem(node.body)] + rest)
    decreases node, 0, |vs|
  {
    hide Spell;
    var item, later := node.body, [LaterItem(node.body)] + rest;
    if vs != [] {
      hide After;
      var first, others := Spell(item, vs[0]), SpellMore(node, vs[1..]);
      assert later[1..] == rest;
      Associate([SeparateListValues], first, others);
      AfterOne(later, SeparateListValues, first + others);
      SpellExpected(item, vs[0], later, d + 1, l + 1);
      AfterBoth([AValue(item)] + later, first, others);
      MoreItemsExpected(node, vs[1..], rest, d, l);
    }
  }

  lemma {:induction false} MapExpected(node: Node, v: Value, rest: seq<Expected>, d: nat, l: nat)
    requires node.Map? && Conforms(node, v) && Levelled(node, d, l)
    ensures After([AValue(node)] + rest, [StartMap] + SpellItems(node, v.items) + [EndMap]) == Some(rest)
    decreases node, 2, 0
  {
    hide After, SpellItems;
    var key, value := node.body.key, node.body.value;
    var start := [FirstKey(key, value)] + rest;
    assert ([AValue(node)] + rest)[1..] == rest && start[1..] == rest && ([LaterKey(key, value)] + rest)[1..] == rest;
    Associate([StartMap], SpellItems(node, v.items), [EndMap]);
    AfterOne([AValue(node)] + rest, StartMap, SpellItems(node, v.items) + [EndMap]);
    if v.items == [] {
      NoItems(node);
      assert [] + [EndMap] == [EndMap];
      AfterOne(start, EndMap, []);
    } else {
      EntriesExpected(node, v.items, rest, d, l);
      AfterBoth(start, SpellItems(node, v.items), [EndMap]);
      AfterOne([LaterKey(key, value)] + rest, EndMap, []);
    }
  }

  /** What comes behind the key of an entry. */
  lemma {:induction false} EntryExpected(node: Node, v: Value, rest: seq<Expected>, d: nat, l: nat)
    requires node.Map? && Levelled(node, d, l) && Conforms(node.body, v)
    ensures var key, value := node.body.key, node.body.value;
      && After([AValue(key)] + ([BehindKey(key, value)] + rest), Spell(key, v.key)) == Some([BehindKey(key, value)] + rest)
      && After([BehindKey(key, value)] + rest, [SeparateKeyValue] + Spell(value, v.value)) == Some([LaterKey(key, value)] + rest)
    decreases node, 0, 0
  {
    hide After, Spell;
    var key, value := node.body.key, node.body.value;
    SpellExpected(key, v.key, [BehindKey(key, value)] + rest, d + 1, l + 1);
    SpellExpected(value, v.value, [LaterKey(key, value)] + rest, d + 1, l + 1);
    assert ([BehindKey(key, value)] + rest)[1..] == rest;
    AfterOne([BehindKey(key, value)] + rest, SeparateKeyValue, Spell(value, v.value));
  }

  lemma {:induction false} EntriesExpected(node: Node, vs: seq<Value>, rest: seq<Expected>, d: nat, l: nat)
    requires node.Map? && vs != [] && EachConforms(node.body, vs) && Levelled(node, d, l)
    ensures After([FirstKey(node.body.key, node.body.value)] + rest, SpellItems(node, vs))
      == Some([LaterKey(node.body.key, node.body.value)] + rest)
    decreases node, 1, 0
  {
    hide After, SpellMore;
    var key, value := node.body.key, node.body.value;
    var start, behind, later := [FirstKey(key, value)] + rest, [BehindKey(key, value)] + rest, [LaterKey(key, value)] + rest;
    var k, v, more := Spell(key, vs[0].key), Spell(value, vs[0].value), SpellMore(node, vs[1..]);
    EntryExpected(node, vs[0], rest, d, l);
    FirstIsValue(key, vs[0].key, FirstKey(key, value), behind, rest);
    MoreEntriesExpected(node, vs[1..], rest, d, l);
    AfterBoth(behind, [SeparateKeyValue] + v, more);
    AfterBoth(start, k, [SeparateKeyValue] + v + more);
    InEntry(k, v, more);
  }

  lemma {:induction false} InEntry(k: seq<Event>, v: seq<Event>, more: seq<Event>)
    ensures k + [SeparateKeyValue] + v + more == k + ([SeparateKeyValue] + v + more)
  {
  }

  lemma {:induction false} MoreEntriesExpected(node: Node, vs: seq<Value>, rest: seq<Expected>, d: nat, l: nat)
    requires node.Map? && EachConforms(node.body, vs) && Levelled(node, d, l)
    ensures After([LaterKey(node.body.key, node.body.value)] + rest, SpellMore(node, vs))
      == Some([LaterKey(node.body.key, node.body.value)] + rest)
    decreases node, 0, |vs|
  {
    var key, value := node.body.key, node.body.value;
    var behind, later := [BehindKey(key, value)] + rest, [LaterKey(key, value)] + rest;
    if vs != [] {
      hide After;
      var k, v, more := Spell(key, vs[0].key), Spell(value, vs[0].value), SpellMore(node, vs[1..]);
      assert later[1..] == rest;
      EntryExpected(node, vs[0], rest, d, l);
      MoreEntriesExpected(node, vs[1..], rest, d, l);
      AfterBoth(behind, [SeparateKeyValue] + v, more);
      AfterBoth([AValue(key)] + behind, k, [SeparateKeyValue] + v + more);
      AfterOne(later, SeparateMapValues, k + ([SeparateKeyValue] + v + more));
      InEntry(k, v, more);
      Associate([SeparateMapValues], k + [SeparateKeyValue] + v, more);
    }
  }

  lemma {:induction false} StructExpected(node: Node, v: Value, rest: seq<Expected>, d: nat, l: nat)
    requires node.Struct? && Conforms(node, v) && Levelled(node, d, l)
    ensures After([AValue(node)] + rest, [StartStruct] + SpellFields(node.fields, v.fields, false) + [EndStruct]) == Some(rest)
    decreases node, 2, 0
  {
    hide After, SpellFields;
    var spelled := SpellFields(node.fields, v.fields, false);
    assert ([AValue(node)] + rest)[1..] == rest && ([Fields([])] + rest)[1..] == rest;
    Associate([StartStruct], spelled, [EndStruct]);
    AfterOne([AValue(node)] + rest, StartStruct, spelled + [EndStruct]);
    FieldsExpected(node.fields, v.fields, false, rest, d, l);
    AfterBoth([Fields(node.fields)] + rest, spelled, [EndStruct]);
    AfterOne([Fields([])] + rest, EndStruct, []);
  }

  function InOrder(fields: seq<Node>, column: bool): Expected {
    if column then Columns(fields) else Fields(fields)
  }

  lemma {:induction false} FieldsExpected(fields: seq<Node>, vs: seq<Value>, column: bool, rest: seq<Expected>, d: nat, l: nat)
    requires AllConform(fields, vs) && AllLevelled(fields, d, l)
    ensures After([InOrder(fields, column)] + rest, SpellFields(fields, vs, column)) == Some([InOrder([], column)] + rest)
    decreases fields, 0, 0
  {
    hide Spell, Levelled, Conforms;
    if fields != [] {
      hide After;
      var expected, later := [InOrder(fields, column)] + rest, [InOrder(fields[1..], column)] + rest;
      var name := if column then StartColumn(fields[0].name) else StartField(fields[0].name);
      var first, others := Spell(fields[0], vs[0]), SpellFields(fields[1..], vs[1..], column);
      assert expected[1..] == rest;
      Associate([name], first, others);
      AfterOne(expected, name, first + others);
      SpellExpected(fields[0], vs[0], later, d, l);
      AfterBoth([AValue(fields[0])] + later, first, others);
      FieldsExpected(fields[1..], vs[1..], column, rest, d, l);
    }
  }

  /** The calls that spell records are those of the schema: every record has all its columns, by
      name and in order, and a value in each; lists, maps and structs are started, separated and
      ended by their own calls. */
  lemma {:induction false} RecordsExpected(fields: seq<Node>, records: seq<Value>)
    requires AllRecords(fields, records) && AllLevelled(fields, 0, 0)
    ensures After([AnyRecords(fields)], SpellRecords(fields, records)) == Some([AnyRecords(fields)])
  {
    hide SpellFields, AllConform, AllLevelled;
    if records != [] {
      hide After;
      var always := [AnyRecords(fields)];
      var columns, others := SpellFields(fields, records[0].fields, true), SpellRecords(fields, records[1..]);
      assert always[1..] == [] && ([Columns([])] + always)[1..] == always;
      FieldsExpected(fields, records[0].fields, true, always, 0, 0);
      AfterBoth([Columns(fields)] + always, columns, [EndRecord] + others);
      AfterOne(always, StartRecord, columns + ([EndRecord] + others));
      AfterOne([Columns([])] + always, EndRecord, others);
      RecordsExpected(fields, records[1..]);
      assert [StartRecord] + columns + [EndRecord] + others == [StartRecord] + (columns + ([EndRecord] + others));
    }
  }

  // ----- Every value once -----

  /** The values that the calls append. */
  function Appended(events: seq<Event>): multiset<Atom> {
    if events == [] then multiset{}
    else (if events[0].AppendValue? then multiset{events[0].atom} else multiset{}) + Appended(events[1..])
  }

  /** The values in a column, and in columns. */
  function ValuesIn(ts: seq<Triplet>): multiset<Atom> {
    if ts == [] then multiset{}
    else (if ts[0].value.Some? then multiset{ts[0].value.value} else multiset{}) + ValuesIn(ts[1..])
  }

  function AllValuesIn(cols: R.Columns): multiset<Atom> {
    if cols == [] then multiset{} else ValuesIn(cols[0]) + AllValuesIn(cols[1..])
  }

  lemma {:induction false} AppendedBoth(a: seq<Event>, b: seq<Event>)
    ensures Appended(a + b) == Appended(a) + Appended(b)
  {
    if a == [] {
      assert a + b == b;
    } else {
      assert (a + b)[0] == a[0] && (a + b)[1..] == a[1..] + b;
      AppendedBoth(a[1..], b);
    }
  }

  lemma {:induction false} AppendedOne(e: Event)
    ensures Appended([e]) == if e.AppendValue? then multiset{e.atom} else multiset{}
    ensures Appended([]) == multiset{}
  {
    assert [e][1..] == [];
  }

  lemma {:induction false} ValuesInBoth(a: seq<Triplet>, b: seq<Triplet>)
    ensures ValuesIn(a + b) == ValuesIn(a) + ValuesIn(b)
  {
    if a == [] {
      assert a + b == b;
    } else {
      assert (a + b)[0] == a[0] && (a + b)[1..] == a[1..] + b;
      ValuesInBoth(a[1..], b);
    }
  }

  lemma {:induction false} ValuesBeside(a: R.Columns, b: R.Columns)
    ensures AllValuesIn(a + b) == AllValuesIn(a) + AllValuesIn(b)
  {
    hide ValuesIn;
    if a == [] {
      assert a + b == b;
    } else {
      assert (a + b)[0] == a[0] && (a + b)[1..] == a[1..] + b;
      ValuesBeside(a[1..], b);
    }
  }

  lemma {:induction false} ValuesZipped(a: R.Columns, b: R.Columns)
    requires |a| == |b|
    ensures AllValuesIn(Zip(a, b)) == AllValuesIn(a) + AllValuesIn(b)
  {
    hide ValuesIn;
    if a != [] {
      ValuesInBoth(a[0], b[0]);
      assert Zip(a, b)[1..] == Zip(a[1..], b[1..]);
      ValuesZipped(a[1..], b[1..]);
    }
  }

  lemma {:induction false} NoValues(cols: R.Columns)
    requires forall i :: 0 <= i < |cols| ==> ValuesIn(cols[i]) == multiset{}
    ensures AllValuesIn(cols) == multiset{}
  {
    hide ValuesIn;
    if cols != [] {
      NoValues(cols[1..]);
    }
  }

  lemma {:induction false} OneValue(t: Triplet)
    ensures ValuesIn([t]) == if t.value.Some? then multiset{t.value.value} else multiset{}
    ensures AllValuesIn([[t]]) == ValuesIn([t])
  {
    assert [t][1..] == [] && [[t]][1..] == [];
  }

  lemma {:induction false} BlankHasNone(node: Node, def: nat, rep: nat)
    ensures AllValuesIn(Blank(node, def, rep)) == multiset{}
  {
    hide ValuesIn;
    OneValue(Triplet(def, rep, None));
    NoValues(Blank(node, def, rep));
  }

  lemma {:induction false} EmptiesHaveNone(n: nat)
    ensures AllValuesIn(Empties(n)) == multiset{}
  {
    NoValues(Empties(n));
  }

  /** Spelling appends the values in the columns of a value, each as often as it is there. */
  lemma {:induction false} SpellAppends(node: Node, v: Value, rep: nat)
    requires Conforms(node, v)
    ensures Appended(Spell(node, v)) == AllValuesIn(Shred(node, v, rep))
    decreases node, 1, 0
  {
    hide Appended, AllValuesIn, ValuesIn, SpellItems, SpellFields, ShredItems, ShredFields, Blank;
    match node
    case Primitive(_, d, _, _) =>
      AppendedOne(AppendValue(v.atom));
      OneValue(Triplet(d, rep, Some(v.atom)));
    case Optional(_, d, _, body) =>
      if v.Null? {
        AppendedOne(AppendNull);
        BlankHasNone(body, d, rep);
      } else {
        SpellAppends(body, v.value, rep);
      }
    case Pair(key, value) =>
      SpellAppends(key, v.key, rep);
      SpellAppends(value, v.value, rep);
      AppendedOne(SeparateKeyValue);
      AppendedBoth(Spell(key, v.key), [SeparateKeyValue]);
      AppendedBoth(Spell(key, v.key) + [SeparateKeyValue], Spell(value, v.value));
      ValuesBeside(Shred(key, v.key, rep), Shred(value, v.value, rep));
    case Struct(_, fields) =>
      SpellFieldsAppends(fields, v.fields, rep, false);
      AppendedFrame(StartStruct, SpellFields(fields, v.fields, false), EndStruct);
    case _ =>
      AppendedFrame(Start(node), SpellItems(node, v.items), End(node));
      if v.items == [] {
        BlankHasNone(node.body, node.def_level, rep);
        NoItems(node);
        AppendedOne(AppendNull);
      } else {
        SpellItemsAppends(node, v.items, rep);
      }
  }

  lemma {:induction false} AppendedFrame(start: Event, events: seq<Event>, end: Event)
    requires !start.AppendValue? && !end.AppendValue?
    ensures Appended([start] + events + [end]) == Appended(events)
  {
    hide Appended;
    AppendedOne(start);
    AppendedOne(end);
    AppendedBoth([start], events);
    AppendedBoth([start] + events, [end]);
  }

  lemma {:induction false} SpellFieldsAppends(fields: seq<Node>, vs: seq<Value>, rep: nat, top: bool)
    requires AllConform(fields, vs)
    ensures Appended(SpellFields(fields, vs, top)) == AllValuesIn(ShredFields(fields, vs, rep))
    decreases fields, 1, 0
  {
    hide Spell, Shred, Conforms, ValuesIn;
    if fields != [] {
      hide Appended, AllValuesIn;
      var name, first, others := [Announce(fields[0], top)], Spell(fields[0], vs[0]), SpellFields(fields[1..], vs[1..], top);
      SpellAppends(fields[0], vs[0], rep);
      SpellFieldsAppends(fields[1..], vs[1..], rep, top);
      AppendedOne(Announce(fields[0], top));
      AppendedBoth(name, first);
      AppendedBoth(name + first, others);
      ValuesBeside(Shred(fields[0], vs[0], rep), ShredFields(fields[1..], vs[1..], rep));
    }
  }

  lemma {:induction false} SpellItemsAppends(node: Node, vs: seq<Value>, rep: nat)
    requires node.Repeated() && vs != [] && EachConforms(node.body, vs)
    ensures Appended(SpellItems(node, vs)) == AllValuesIn(ShredItems(node.body, vs, rep, node.rep_level + 1))
    decreases node, 0, |vs| + 1
  {
    hide Spell, Shred, Appended, AllValuesIn, SpellMore;
    var next := node.rep_level + 1;
    SpellAppends(node.body, vs[0], rep);
    SpellMoreAppends(node, vs[1..]);
    AppendedBoth(Spell(node.body, vs[0]), SpellMore(node, vs[1..]));
    ValuesZipped(Shred(node.body, vs[0], rep), ShredItems(node.body, vs[1..], next, next));
  }

  lemma {:induction false} SpellMoreAppends(node: Node, vs: seq<Value>)
    requires node.Repeated() && EachConforms(node.body, vs)
    ensures Appended(SpellMore(node, vs)) == AllValuesIn(ShredItems(node.body, vs, node.rep_level + 1, node.rep_level + 1))
    decreases node, 0, |vs|
  {
    hide Spell, Shred, Appended, AllValuesIn;
    var next := node.rep_level + 1;
    if vs == [] {
      EmptiesHaveNone(Leaves(node.body));
      AppendedOne(AppendNull);
    } else {
      SpellAppends(node.body, vs[0], next);
      SpellMoreAppends(node, vs[1..]);
      AppendedOne(Separate(node));
      AppendedBoth([Separate(node)], Spell(node.body, vs[0]));
      AppendedBoth([Separate(node)] + Spell(node.body, vs[0]), SpellMore(node, vs[1..]));
      ValuesZipped(Shred(node.body, vs[0], next), ShredItems(node.body, vs[1..], next, next));
    }
  }

  /** The calls that spell records append exactly the values in the columns of the records. */
  lemma {:induction false} EveryValueOnce(fields: seq<Node>, records: seq<Value>)
    requires AllRecords(fields, records)
    ensures Appended(SpellRecords(fields, records)) == AllValuesIn(ShredRecords(fields, records))
  {
    hide SpellFields, ShredFields, AllConform, Appended, AllValuesIn;
    if records == [] {
      EmptiesHaveNone(LeavesOf(fields));
      AppendedOne(AppendNull);
    } else {
      var columns := SpellFields(fields, records[0].fields, true);
      SpellFieldsAppends(fields, records[0].fields, 0, true);
      AppendedFrame(StartRecord, columns, EndRecord);
      AppendedBoth([StartRecord] + columns + [EndRecord], SpellRecords(fields, records[1..]));
      EveryValueOnce(fields, records[1..]);
      ValuesZipped(ShredFields(fields, records[0].fields, 0), ShredRecords(fields, records[1..]));
    }
  }
}
