/**
Around the assembly theorem: the calls spell their records unambiguously, so shredding loses
nothing; and the schemas whose records come back are exactly the readable ones.
 */
module Lossless {
  import opened Options
  import opened Bits
  import opened Records
  import opened Assembly

  // ----- Spelling is unambiguous -----

  /** A call that a value can start with. */
  predicate Opening(e: Event) {
    e.AppendValue? || e.AppendNull? || e.StartStruct? || e.StartList? || e.StartMap?
  }

  lemma {:induction false} SpellOpens(node: Node, v: Value)
    requires Conforms(node, v)
    ensures Spell(node, v) != [] && Opening(Spell(node, v)[0])
    ensures Spell(node, v)[0] == AppendNull ==> node.Optional? || node.Pair?
  {
    hide SpellFields, SpellItems, SpellMore;
    match node
    case Optional(_, _, _, body) =>
      if v.Present? {
        SpellOpens(body, v.value);
      }
    case Pair(key, _) => SpellOpens(key, v.key);
    case _ =>
  }

  lemma {:induction false} SameHead(s: Event, a: seq<Event>, t: Event, b: seq<Event>)
    requires [s] + a == [t] + b
    ensures s == t && a == b
  {
    assert ([s] + a)[0] == s && ([t] + b)[0] == t;
    assert ([s] + a)[1..] == a && ([t] + b)[1..] == b;
  }

  lemma {:induction false} Framed(s: Event, a: seq<Event>, t: Event, x: seq<Event>)
    ensures [s] + a + [t] + x == [s] + (a + ([t] + x))
  {
  }

  lemma {:induction false} Separated(a: seq<Event>, t: Event, b: seq<Event>, x: seq<Event>)
    ensures a + [t] + b + x == a + ([t] + (b + x))
  {
  }

  lemma {:induction false} FirstOf(a: seq<Event>, x: seq<Event>)
    requires a != []
    ensures a + x != [] && (a + x)[0] == a[0]
  {
  }

  /** No spelling is the beginning of another one of the same node. */
  lemma {:induction false} SpellUnambiguous(
    node: Node, v: Value, w: Value, x: seq<Event>, y: seq<Event>, d: nat, l: nat)
    requires Conforms(node, v) && Conforms(node, w) && Levelled(node, d, l)
    requires Spell(node, v) + x == Spell(node, w) + y
    ensures v == w && x == y
    decreases node, 3, 0
  {
    hide SpellFields, SpellItems, SpellMore;
    match node
    case Primitive(_, _, _, _) => SameHead(AppendValue(v.atom), x, AppendValue(w.atom), y);
    case Optional(_, _, _, body) => OptionalUnambiguous(node, v, w, x, y, d, l);
    case Pair(key, value) =>
      var a, b := Spell(value, v.value), Spell(value, w.value);
      Separated(Spell(key, v.key), SeparateKeyValue, a, x);
      Separated(Spell(key, w.key), SeparateKeyValue, b, y);
      SpellUnambiguous(key, v.key, w.key, [SeparateKeyValue] + (a + x), [SeparateKeyValue] + (b + y), d, l);
      SameHead(SeparateKeyValue, a + x, SeparateKeyValue, b + y);
      SpellUnambiguous(value, v.value, w.value, x, y, d, l);
    case Struct(_, fields) =>
      var a, b := SpellFields(fields, v.fields, false), SpellFields(fields, w.fields, false);
      Framed(StartStruct, a, EndStruct, x);
      Framed(StartStruct, b, EndStruct, y);
      SameHead(StartStruct, a + ([EndStruct] + x), StartStruct, b + ([EndStruct] + y));
      FieldsUnambiguous(fields, v.fields, w.fields, false, [EndStruct] + x, [EndStruct] + y, d, l);
      SameHead(EndStruct, x, EndStruct, y);
    case _ =>
      var s, t := Start(node), End(node);
      var a, b := SpellItems(node, v.items), SpellItems(node, w.items);
      Framed(s, a, t, x);
      Framed(s, b, t, y);
      SameHead(s, a + ([t] + x), s, b + ([t] + y));
      ItemsUnambiguous(node, v.items, w.items, x, y, d, l);
  }

  lemma {:induction false} OptionalUnambiguous(
    node: Node, v: Value, w: Value, x: seq<Event>, y: seq<Event>, d: nat, l: nat)
    requires node.Optional? && Conforms(node, v) && Conforms(node, w) && Levelled(node, d, l)
    requires Spell(node, v) + x == Spell(node, w) + y
    ensures v == w && x == y
    decreases node, 2, 0
  {
    FirstOf(Spell(node, v), x);
    FirstOf(Spell(node, w), y);
    if v.Present? {
      SpellOpens(node.body, v.value);
    }
    if w.Present? {
      SpellOpens(node.body, w.value);
    }
    if v.Present? && w.Present? {
      SpellUnambiguous(node.body, v.value, w.value, x, y, d + 1, l);
    } else if v.Null? && w.Null? {
      SameHead(AppendNull, x, AppendNull, y);
    }
  }

  lemma {:induction false} FieldsUnambiguous(
    fields: seq<Node>, vs: seq<Value>, ws: seq<Value>, top: bool, x: seq<Event>, y: seq<Event>, d: nat, l: nat)
    requires AllConform(fields, vs) && AllConform(fields, ws) && AllLevelled(fields, d, l)
    requires SpellFields(fields, vs, top) + x == SpellFields(fields, ws, top) + y
    ensures vs == ws && x == y
    decreases fields, 3, 0
  {
    hide Spell, Conforms, Levelled;
    if fields == [] {
      assert [] + x == x && [] + y == y;
    } else {
      var s := Announce(fields[0], top);
      var a, b := Spell(fields[0], vs[0]), Spell(fields[0], ws[0]);
      var p, q := SpellFields(fields[1..], vs[1..], top), SpellFields(fields[1..], ws[1..], top);
      HeadThenRest(s, a, p, x);
      HeadThenRest(s, b, q, y);
      SameHead(s, a + (p + x), s, b + (q + y));
      SpellUnambiguous(fields[0], vs[0], ws[0], p + x, q + y, d, l);
      FieldsUnambiguous(fields[1..], vs[1..], ws[1..], top, x, y, d, l);
      assert vs == [vs[0]] + vs[1..] && ws == [ws[0]] + ws[1..];
    }
  }

  lemma {:induction false} HeadThenRest(s: Event, a: seq<Event>, p: seq<Event>, x: seq<Event>)
    ensures [s] + a + p + x == [s] + (a + (p + x))
  {
  }

  lemma {:induction false} ItemsUnambiguous(
    node: Node, vs: seq<Value>, ws: seq<Value>, x: seq<Event>, y: seq<Event>, d: nat, l: nat)
    requires node.Repeated() && EachConforms(node.body, vs) && EachConforms(node.body, ws) && Levelled(node, d, l)
    requires SpellItems(node, vs) + ([End(node)] + x) == SpellItems(node, ws) + ([End(node)] + y)
    ensures vs == ws && x == y
    decreases node, 2, 0
  {
    hide Spell, SpellMore, Conforms;
    var t := End(node);
    var ex, ey := [t] + x, [t] + y;
    ItemsOpen(node, vs, x);
    ItemsOpen(node, ws, y);
    if vs == [] || ws == [] {
      assert [] + ex == ex && [] + ey == ey;
      SameHead(t, x, t, y);
    } else {
      var p, q := SpellMore(node, vs[1..]), SpellMore(node, ws[1..]);
      Associate(Spell(node.body, vs[0]), p, ex);
      Associate(Spell(node.body, ws[0]), q, ey);
      SpellUnambiguous(node.body, vs[0], ws[0], p + ex, q + ey, d + 1, l + 1);
      MoreUnambiguous(node, vs[1..], ws[1..], x, y, d, l);
      assert vs == [vs[0]] + vs[1..] && ws == [ws[0]] + ws[1..];
    }
  }

  /** A list that has no items shows it with the first call after its start. */
  lemma {:induction false} ItemsOpen(node: Node, vs: seq<Value>, x: seq<Event>)
    requires node.Repeated() && EachConforms(node.body, vs)
    ensures var all := SpellItems(node, vs) + ([End(node)] + x);
      all != [] && (all[0] == End(node) <==> vs == [])
  {
    if vs != [] {
      SpellOpens(node.body, vs[0]);
    }
  }

  lemma {:induction false} MoreUnambiguous(
    node: Node, vs: seq<Value>, ws: seq<Value>, x: seq<Event>, y: seq<Event>, d: nat, l: nat)
    requires node.Repeated() && EachConforms(node.body, vs) && EachConforms(node.body, ws) && Levelled(node, d, l)
    requires SpellMore(node, vs) + ([End(node)] + x) == SpellMore(node, ws) + ([End(node)] + y)
    ensures vs == ws && x == y
    decreases node, 1, |vs|
  {
    hide Spell, Conforms;
    var t, s := End(node), Separate(node);
    var ex, ey := [t] + x, [t] + y;
    if vs == [] || ws == [] {
      assert (SpellMore(node, vs) + ex)[0] == if vs == [] then t else s;
      assert (SpellMore(node, ws) + ey)[0] == if ws == [] then t else s;
      assert [] + ex == ex && [] + ey == ey;
      SameHead(t, x, t, y);
    } else {
      var a, b := Spell(node.body, vs[0]), Spell(node.body, ws[0]);
      var p, q := SpellMore(node, vs[1..]), SpellMore(node, ws[1..]);
      HeadThenRest(s, a, p, ex);
      HeadThenRest(s, b, q, ey);
      SameHead(s, a + (p + ex), s, b + (q + ey));
      SpellUnambiguous(node.body, vs[0], ws[0], p + ex, q + ey, d + 1, l + 1);
      MoreUnambiguous(node, vs[1..], ws[1..], x, y, d, l);
      assert vs == [vs[0]] + vs[1..] && ws == [ws[0]] + ws[1..];
    }
  }

  lemma {:induction false} RecordsUnambiguous(fields: seq<Node>, a: seq<Value>, b: seq<Value>)
    requires AllRecords(fields, a) && AllRecords(fields, b) && AllLevelled(fields, 0, 0)
    requires SpellRecords(fields, a) == SpellRecords(fields, b)
    ensures a == b
  {
    hide AllConform, AllLevelled, SpellFields;
    if a != [] && b != [] {
      var p, q := SpellFields(fields, a[0].fields, true), SpellFields(fields, b[0].fields, true);
      var x, y := SpellRecords(fields, a[1..]), SpellRecords(fields, b[1..]);
      Framed(StartRecord, p, EndRecord, x);
      Framed(StartRecord, q, EndRecord, y);
      SameHead(StartRecord, p + ([EndRecord] + x), StartRecord, q + ([EndRecord] + y));
      FieldsUnambiguous(fields, a[0].fields, b[0].fields, true, [EndRecord] + x, [EndRecord] + y, 0, 0);
      SameHead(EndRecord, x, EndRecord, y);
      RecordsUnambiguous(fields, a[1..], b[1..]);
      assert a == [a[0]] + a[1..] && b == [b[0]] + b[1..];
    }
  }

  /** Different records have different columns. */
  lemma {:induction false} ShredIsLossless(fields: seq<Node>, a: seq<Value>, b: seq<Value>)
    requires AllRecords(fields, a) && AllRecords(fields, b) && AllLevelled(fields, 0, 0) && Readable(fields)
    ensures ShredRecords(fields, a) == ShredRecords(fields, b) <==> a == b
  {
    if ShredRecords(fields, a) == ShredRecords(fields, b) {
      RecordsReadBack(fields, a);
      RecordsReadBack(fields, b);
      RecordsUnambiguous(fields, a, b);
    }
  }

  // ----- Which schemas are readable -----

  /** A value with as little in it as possible. */
  function Least(node: Node): (v: Value)
    ensures Conforms(node, v)
  {
    match node
    case Primitive(_, _, _, _) => Atomic([])
    case Optional(_, _, _, _) => Null
    case Pair(key, value) => Entry(Least(key), Least(value))
    case Struct(_, fields) => Record(LeastOf(fields))
    case _ => Items([])
  }

  function LeastOf(fields: seq<Node>): (vs: seq<Value>)
    ensures AllConform(fields, vs)
  {
    if fields == [] then [] else [Least(fields[0])] + LeastOf(fields[1..])
  }

  /** A value whose columns do not tell what is in it. */
  function Lost(node: Node): (v: Value)
    requires !Led(node)
    ensures Conforms(node, v)
  {
    if node.Pair? then
      if Led(node.key) then Entry(Least(node.key), Lost(node.value)) else Entry(Lost(node.key), Least(node.value))
    else if node.Struct? then Record(LostOf(node.fields))
    else
      var v := if HasLead(node.body) then Lost(node.body) else Least(node.body);
      assert EachConforms(node.body, [v][1..]);
      if node.Optional? then Present(v) else Items([v])
  }

  function LostOf(fields: seq<Node>): (vs: seq<Value>)
    requires !AllLed(fields)
    ensures AllConform(fields, vs)
  {
    if Led(fields[0]) then [Least(fields[0])] + LostOf(fields[1..]) else [Lost(fields[0])] + LeastOf(fields[1..])
  }

  /** Reading failed or has made a different call before either sequence of calls ended. */
  predicate Astray(o: Outcome, right: seq<Event>) {
    o.Failed? || exists k :: 0 <= k < |o.events| && k < |right| && o.events[k] != right[k]
  }

  lemma {:induction false} AstrayAt(o: Outcome, right: seq<Event>, k: nat)
    requires o.Read? ==> k < |o.events| && k < |right| && o.events[k] != right[k]
    ensures Astray(o, right)
  {
  }

  lemma {:induction false} AstrayAround(before: seq<Event>, o: Outcome, after: seq<Event>, right: seq<Event>, more: seq<Event>)
    requires Astray(o, right)
    ensures Astray(Around(before, o, after), before + right + more)
  {
    if o.Read? {
      var k :| 0 <= k < |o.events| && k < |right| && o.events[k] != right[k];
      var r := Around(before, o, after);
      assert r.events[|before| + k] == o.events[k] && (before + right + more)[|before| + k] == right[k];
    }
  }

  lemma {:induction false} AstrayBeside(o: Outcome, p: Outcome, right: seq<Event>, more: seq<Event>)
    requires Astray(o, right)
    ensures Astray(Beside(o, p), right + more)
  {
    if o.Read? && p.Read? {
      var k :| 0 <= k < |o.events| && k < |right| && o.events[k] != right[k];
      assert Beside(o, p).events[k] == o.events[k] && (right + more)[k] == right[k];
    }
  }

  lemma {:induction false} AstrayAfter(o: Outcome, p: Outcome, right: seq<Event>)
    requires o.Read? && Astray(p, right)
    ensures Astray(Beside(o, p), o.events + right)
  {
    if p.Read? {
      var k :| 0 <= k < |p.events| && k < |right| && p.events[k] != right[k];
      assert Beside(o, p).events[|o.events| + k] == p.events[k] && (o.events + right)[|o.events| + k] == right[k];
    }
  }

  lemma {:induction false} NoLeadNoLevels(node: Node, cols: Columns)
    requires |cols| == Leaves(node) && !HasLead(node)
    ensures CurrentLevels(node, cols) == NO_LEVELS
  {
    if node.Pair? {
      NoLeadNoLevels(node.key, cols[..Leaves(node.key)]);
    } else if node.Struct? {
      if node.fields != [] {
        NoLeadNoLevels(node.fields[0], cols[..Leaves(node.fields[0])]);
      }
    } else {
      NoLeadNoLevels(node.body, cols);
    }
  }

  lemma {:induction false} LostReadsAstray(node: Node, rep: nat, rest: Columns, d: nat, l: nat)
    requires Levelled(node, d, l) && !Led(node) && |rest| == Leaves(node) && Settled(rest, l)
    ensures Astray(ReadField(node, Zip(Shred(node, Lost(node), rep), rest)), Spell(node, Lost(node)))
    decreases node, 2
  {
    hide ReadFields, ReadItems, ReadMore, ShredFields, ShredItems, SpellFields, SpellItems, SpellMore, Settled, Astray, Zip;
    if node.Optional? {
      LostOptional(node, rep, rest, d, l);
    } else if node.Pair? {
      LostPair(node, rep, rest, d, l);
    } else if node.Struct? {
      var vs := LostOf(node.fields);
      LostFields(node.fields, rep, rest, d, l, false);
      AstrayAround([StartStruct], ReadFields(node.fields, Zip(ShredFields(node.fields, vs, rep), rest)), [EndStruct],
        SpellFields(node.fields, vs, false), [EndStruct]);
    } else {
      LostItem(node, rep, rest, d, l);
    }
  }

  lemma {:induction false} LostOptional(node: Node, rep: nat, rest: Columns, d: nat, l: nat)
    requires node.Optional? && Levelled(node, d, l) && !Led(node) && |rest| == Leaves(node) && Settled(rest, l)
    ensures Astray(ReadField(node, Zip(Shred(node, Lost(node), rep), rest)), Spell(node, Lost(node)))
    decreases node, 1
  {
    var body := node.body;
    var cols := Zip(Shred(node, Lost(node), rep), rest);
    if HasLead(body) {
      LeadLevels(body, cols);
      ShredOpens(body, Lost(body), rep, d + 1, l);
      LostReadsAstray(body, rep, rest, d + 1, l);
    } else {
      NoLeadNoLevels(body, cols);
      SpellOpens(body, Least(body));
    }
  }

  lemma {:induction false} LostItem(node: Node, rep: nat, rest: Columns, d: nat, l: nat)
    requires node.Repeated() && Levelled(node, d, l) && !Led(node) && |rest| == Leaves(node) && Settled(rest, l)
    ensures Astray(ReadField(node, Zip(Shred(node, Lost(node), rep), rest)), Spell(node, Lost(node)))
    decreases node, 1
  {
    hide Zip, Astray, ReadMore, SpellMore, Conforms, Settled, Opens;
    var body := node.body;
    var v := Lost(node).items[0];
    assert Lost(node) == Items([v]);
    var cols := Zip(Shred(node, Lost(node), rep), rest);
    if HasLead(body) {
      LeadLevels(body, cols);
      ShredOpens(body, v, rep, d + 1, l + 1);
      OneItem(body, v, rep, rest, l);
      SettledDeeper(rest, l);
      LostReadsAstray(body, rep, rest, d + 1, l + 1);
      ItemsAstray(node, v, rep, rest, d, l);
    } else {
      NoLeadNoLevels(body, cols);
      SpellOpens(body, v);
      assert Spell(node, Lost(node))[1] == Spell(body, v)[0];
      AstrayAt(ReadField(node, cols), Spell(node, Lost(node)), 1);
    }
  }

  lemma {:induction false} SettledDeeper(rest: Columns, l: nat)
    requires Settled(rest, l)
    ensures Settled(rest, l + 1)
  {
  }

  lemma {:induction false} OneItem(node: Node, v: Value, rep: nat, rest: Columns, l: nat)
    requires Conforms(node, v) && EachConforms(node, [v]) && |rest| == Leaves(node)
    ensures Zip(ShredItems(node, [v], rep, l + 1), rest) == Zip(Shred(node, v, rep), rest)
  {
    hide Zip, Shred, Conforms, Leaves;
    ZipAssociates(Shred(node, v, rep), Empties(|rest|), rest);
    ZipEmpties(rest);
    assert ShredItems(node, [v][1..], l + 1, l + 1) == Empties(|rest|);
  }

  lemma {:induction false} ItemsAstray(node: Node, v: Value, rep: nat, rest: Columns, d: nat, l: nat)
    requires node.Repeated() && Levelled(node, d, l) && HasLead(node.body)
    requires Conforms(node.body, v) && EachConforms(node.body, [v]) && |rest| == Leaves(node)
    requires Opens(Shred(node.body, v, rep), d + 1, rep)
    requires Astray(ReadField(node.body, Zip(Shred(node.body, v, rep), rest)), Spell(node.body, v))
    ensures Astray(ReadField(node, Zip(ShredItems(node.body, [v], rep, l + 1), rest)), Spell(node, Items([v])))
  {
    hide Zip, Shred, ShredItems, Astray, ReadItems, SpellItems, Conforms, Opens;
    var cols := Zip(ShredItems(node.body, [v], rep, l + 1), rest);
    OneItem(node.body, v, rep, rest, l);
    OpensSettled(Shred(node.body, v, rep), rest, d + 1, rep);
    LeadLevels(node.body, cols);
    FirstOpens(cols, d + 1, rep);
    AstrayItems(node, v, rep, rest, l);
    AstrayAround([Start(node)], ReadItems(node, cols), [End(node)], SpellItems(node, [v]), [End(node)]);
  }

  lemma {:induction false} FirstOpens(cols: Columns, d: nat, rep: nat)
    requires |cols| > 0 && Opens(cols, d, rep)
    ensures cols[0] != [] && cols[0][0].def_level >= d
  {
  }

  lemma {:induction false} AstrayItems(node: Node, v: Value, rep: nat, rest: Columns, l: nat)
    requires node.Repeated() && Conforms(node.body, v) && EachConforms(node.body, [v])
    requires |rest| == Leaves(node.body) && Astray(ReadField(node.body, Zip(Shred(node.body, v, rep), rest)), Spell(node.body, v))
    ensures Astray(ReadItems(node, Zip(ShredItems(node.body, [v], rep, l + 1), rest)), SpellItems(node, [v]))
  {
    hide ReadField, Shred, Spell, Conforms, ReadMore, Zip;
    OneItem(node.body, v, rep, rest, l);
    var cols := Zip(Shred(node.body, v, rep), rest);
    var o := ReadField(node.body, cols);
    if o.Read? {
      var k :| 0 <= k < |o.events| && k < |Spell(node.body, v)| && o.events[k] != Spell(node.body, v)[k];
      var r := ReadItems(node, cols);
      if r.Read? {
        assert r.events[k] == o.events[k] && SpellItems(node, [v])[k] == Spell(node.body, v)[k];
      }
    }
  }

  lemma {:induction false} LostPair(node: Node, rep: nat, rest: Columns, d: nat, l: nat)
    requires node.Pair? && Levelled(node, d, l) && !Led(node) && |rest| == Leaves(node) && Settled(rest, l)
    ensures Astray(ReadField(node, Zip(Shred(node, Lost(node), rep), rest)), Spell(node, Lost(node)))
    decreases node, 1
  {
    hide Zip, Settled, Astray;
    var key, value, v := node.key, node.value, Lost(node);
    var n := Leaves(key);
    var sep := [SeparateKeyValue];
    ZipSplit(Shred(key, v.key, rep), Shred(value, v.value, rep), rest);
    SettledParts(rest, n, l);
    var cols := Zip(Shred(node, v, rep), rest);
    var o := ReadField(key, cols[..n]);
    var p := ReadField(value, cols[n..]);
    assert [] + Spell(key, v.key) == Spell(key, v.key);
    if Led(key) {
      FieldReadsBack(key, v.key, rep, rest[..n], d, l);
      LostReadsAstray(value, rep, rest[n..], d, l);
      AstrayAfter(Around([], o, sep), p, Spell(value, v.value));
    } else {
      LostReadsAstray(key, rep, rest[..n], d, l);
      AstrayAround([], o, sep, Spell(key, v.key), sep);
      AstrayBeside(Around([], o, sep), p, Spell(key, v.key) + sep, Spell(value, v.value));
    }
  }

  lemma {:induction false} LostFields(fields: seq<Node>, rep: nat, rest: Columns, d: nat, l: nat, top: bool)
    requires AllLevelled(fields, d, l) && !AllLed(fields) && |rest| == LeavesOf(fields) && Settled(rest, l)
    requires top ==> d == 0
    ensures var vs := LostOf(fields); var cols := Zip(ShredFields(fields, vs, rep), rest);
      Astray(if top then ReadColumns(fields, cols) else ReadFields(fields, cols), SpellFields(fields, vs, top))
    decreases fields, 1
  {
    hide Zip, Settled, Astray, ReadField, Shred, Spell, Conforms, Levelled, Led, Leaves, ReadColumn, HasLead;
    var head, vs := fields[0], LostOf(fields);
    var n := Leaves(head);
    ZipSplit(Shred(head, vs[0], rep), ShredFields(fields[1..], vs[1..], rep), rest);
    SettledParts(rest, n, l);
    var cols := Zip(ShredFields(fields, vs, rep), rest);
    if top {
      ColumnIsField(head, cols[..n], l);
    }
    var o := ReadField(head, cols[..n]);
    var p := if top then ReadColumns(fields[1..], cols[n..]) else ReadFields(fields[1..], cols[n..]);
    var start := [Announce(head, top)];
    if Led(head) {
      FieldReadsBack(head, vs[0], rep, rest[..n], d, l);
      LostFields(fields[1..], rep, rest[n..], d, l, top);
      AstrayAfter(Around(start, o, []), p, SpellFields(fields[1..], vs[1..], top));
      assert start + Spell(head, vs[0]) + [] == start + Spell(head, vs[0]);
    } else {
      LostReadsAstray(head, rep, rest[..n], d, l);
      AstrayAround(start, o, [], Spell(head, vs[0]), []);
      AstrayBeside(Around(start, o, []), p, start + Spell(head, vs[0]) + [], SpellFields(fields[1..], vs[1..], top));
      assert start + Spell(head, vs[0]) + [] == start + Spell(head, vs[0]);
    }
  }

  lemma {:induction false} EmptiesSettled(n: nat)
    ensures Settled(Empties(n), 0)
  {
  }

  lemma {:induction false} RecordAstray(fields: seq<Node>, vs: seq<Value>, cols: Columns)
    requires AllConform(fields, vs) && |cols| == LeavesOf(fields) && FirstLevels(fields, cols).def >= 0
    requires Astray(ReadOne(fields, cols), [StartRecord] + SpellFields(fields, vs, true) + [EndRecord])
    ensures ReadAll(fields, cols).Read? ==> ReadAll(fields, cols).events != SpellRecords(fields, [Record(vs)])
  {
    hide ReadColumns, SpellFields, AllConform, Advanced, FirstLevels;
    var right := [StartRecord] + SpellFields(fields, vs, true) + [EndRecord];
    var o, r := ReadOne(fields, cols), ReadAll(fields, cols);
    assert SpellRecords(fields, [Record(vs)]) == right + SpellRecords(fields, []);
    if r.Read? {
      var k :| 0 <= k < |o.events| && k < |right| && o.events[k] != right[k];
      assert r.events[k] == o.events[k];
    }
  }

  /** One record that does not come back, for a schema that is not readable. */
  lemma {:induction false} LostRecord(fields: seq<Node>) returns (records: seq<Value>)
    requires AllLevelled(fields, 0, 0) && !Readable(fields)
    ensures AllRecords(fields, records)
    ensures ReadAll(fields, ShredRecords(fields, records)) != Read(SpellRecords(fields, records), Empties(LeavesOf(fields)))
  {
    hide Zip, ShredFields, ReadColumns, SpellFields, AllConform, Settled, Advanced, Astray;
    if fields == [] || !HasLead(fields[0]) {
      records := [Record(LeastOf(fields))];
      var cols := ShredRecords(fields, records);
      if fields != [] {
        NoLeadNoLevels(fields[0], cols[..Leaves(fields[0])]);
      }
    } else {
      var vs := LostOf(fields);
      records := [Record(vs)];
      var first := ShredFields(fields, vs, 0);
      var rest := Empties(LeavesOf(fields));
      var cols := ShredRecords(fields, records);
      assert records[1..] == [] && ShredRecords(fields, []) == rest;
      assert cols == Zip(first, rest);
      EmptiesSettled(LeavesOf(fields));
      ShredFieldsOpens(fields, vs, 0, 0, 0);
      OpensSettled(first, rest, 0, 0);
      FirstHasLevels(fields, cols);
      LostFields(fields, 0, rest, 0, 0, true);
      AstrayAround([StartRecord], ReadColumns(fields, cols), [EndRecord], SpellFields(fields, vs, true), [EndRecord]);
      RecordAstray(fields, vs, cols);
    }
  }

  /** Every list of records comes back exactly when the schema is readable: its first field ends
      in a column and so does the first child of whatever is optional or repeated. */
  lemma {:induction false} ReadsBackIffReadable(fields: seq<Node>)
    requires AllLevelled(fields, 0, 0)
    ensures Readable(fields) <==> forall records: seq<Value> :: AllRecords(fields, records) ==>
      ReadAll(fields, ShredRecords(fields, records)) == Read(SpellRecords(fields, records), Empties(LeavesOf(fields)))
  {
    if Readable(fields) {
      forall records: seq<Value> | AllRecords(fields, records)
        ensures ReadAll(fields, ShredRecords(fields, records)) == Read(SpellRecords(fields, records), Empties(LeavesOf(fields)))
      {
        RecordsReadBack(fields, records);
      }
    } else {
      var records := LostRecord(fields);
    }
  }

  // ----- Other values in the same places -----

  /** The same levels, and values in the same places. */
  predicate SameShape(a: seq<Triplet>, b: seq<Triplet>) {
    && |a| == |b|
    && forall i :: 0 <= i < |a| ==>
      a[i].def_level == b[i].def_level && a[i].rep_level == b[i].rep_level && a[i].value.Some? == b[i].value.Some?
  }

  predicate AllSameShape(cols: Columns, right: Columns) {
    |cols| == |right| && forall i :: 0 <= i < |cols| ==> SameShape(cols[i], right[i])
  }

  lemma {:induction false} ShapeParts(cols: Columns, a: Columns, b: Columns)
    requires AllSameShape(cols, a + b)
    ensures AllSameShape(cols[..|a|], a) && AllSameShape(cols[|a|..], b)
  {
    hide SameShape;
    assert forall i :: 0 <= i < |a| ==> (a + b)[i] == a[i];
    assert forall i :: 0 <= i < |b| ==> (a + b)[|a| + i] == b[i];
  }

  /** Columns cut where the first value ends. */
  lemma {:induction false} ShapeCut(cols: Columns, a: Columns, b: Columns) returns (x: Columns, y: Columns)
    requires |a| == |b| && AllSameShape(cols, Zip(a, b))
    ensures AllSameShape(x, a) && AllSameShape(y, b) && cols == Zip(x, y)
  {
    x := seq(|a|, i requires 0 <= i < |a| => if |a[i]| <= |cols[i]| then cols[i][..|a[i]|] else []);
    y := seq(|a|, i requires 0 <= i < |a| => if |a[i]| <= |cols[i]| then cols[i][|a[i]|..] else []);
    forall i | 0 <= i < |a| ensures SameShape(x[i], a[i]) && SameShape(y[i], b[i]) && cols[i] == x[i] + y[i] {
      assert SameShape(cols[i], a[i] + b[i]);
      SplitShape(cols[i], a[i], b[i]);
    }
  }

  lemma {:induction false} SplitShape(c: seq<Triplet>, a: seq<Triplet>, b: seq<Triplet>)
    requires SameShape(c, a + b)
    ensures SameShape(c[..|a|], a) && SameShape(c[|a|..], b) && c == c[..|a|] + c[|a|..]
  {
    assert forall i :: 0 <= i < |a| ==> (a + b)[i] == a[i];
    assert forall i :: 0 <= i < |b| ==> (a + b)[|a| + i] == b[i];
  }

  lemma {:induction false} SameBlank(cols: Columns, node: Node, def: nat, rep: nat)
    requires AllSameShape(cols, Blank(node, def, rep))
    ensures cols == Blank(node, def, rep)
  {
    forall i | 0 <= i < |cols| ensures cols[i] == [Triplet(def, rep, None)] {
      assert SameShape(cols[i], [Triplet(def, rep, None)]);
    }
  }

  /** Columns with other values in the same places are those of a value of the same shape. */
  lemma {:induction false} Refill(node: Node, v: Value, rep: nat, cols: Columns) returns (w: Value)
    requires Conforms(node, v) && AllSameShape(cols, Shred(node, v, rep))
    ensures Conforms(node, w) && Shred(node, w, rep) == cols
    decreases node, 1, 0
  {
    hide SameShape, ShredItems, ShredFields;
    match node
    case Primitive(_, _, _, _) => w := RefillLeaf(node, v, rep, cols);
    case Optional(_, d, _, body) =>
      if v.Null? {
        SameBlank(cols, body, d, rep);
        w := Null;
      } else {
        var x := Refill(body, v.value, rep, cols);
        w := Present(x);
      }
    case Pair(key, value) =>
      var a, b := Shred(key, v.key, rep), Shred(value, v.value, rep);
      ShapeParts(cols, a, b);
      var x := Refill(key, v.key, rep, cols[..|a|]);
      var y := Refill(value, v.value, rep, cols[|a|..]);
      w := Entry(x, y);
    case Struct(_, fields) =>
      var xs := RefillFields(fields, v.fields, rep, cols);
      w := Record(xs);
    case _ =>
      if v.items == [] {
        SameBlank(cols, node.body, node.def_level, rep);
        w := Items([]);
      } else {
        var xs := RefillItems(node.body, v.items, rep, node.rep_level + 1, cols);
        w := Items(xs);
      }
  }

  lemma {:induction false} RefillLeaf(node: Node, v: Value, rep: nat, cols: Columns) returns (w: Value)
    requires node.Primitive? && Conforms(node, v) && AllSameShape(cols, Shred(node, v, rep))
    ensures Conforms(node, w) && Shred(node, w, rep) == cols
  {
    assert SameShape(cols[0], [Triplet(node.def_level, rep, Some(v.atom))]);
    w := Atomic(cols[0][0].value.value);
    assert cols == [cols[0]] && cols[0] == [cols[0][0]];
  }

  lemma {:induction false} RefillFields(fields: seq<Node>, vs: seq<Value>, rep: nat, cols: Columns) returns (ws: seq<Value>)
    requires AllConform(fields, vs) && AllSameShape(cols, ShredFields(fields, vs, rep))
    ensures AllConform(fields, ws) && ShredFields(fields, ws, rep) == cols
    decreases fields, 1, 0
  {
    hide SameShape, Shred, Conforms, Leaves;
    ws := [];
    if fields != [] {
      var a, b := Shred(fields[0], vs[0], rep), ShredFields(fields[1..], vs[1..], rep);
      ShapeParts(cols, a, b);
      var x := Refill(fields[0], vs[0], rep, cols[..|a|]);
      var xs := RefillFields(fields[1..], vs[1..], rep, cols[|a|..]);
      ws := [x] + xs;
      assert ws[1..] == xs && cols == cols[..|a|] + cols[|a|..];
    }
  }

  lemma {:induction false} RefillItems(node: Node, vs: seq<Value>, first: nat, next: nat, cols: Columns) returns (ws: seq<Value>)
    requires EachConforms(node, vs) && AllSameShape(cols, ShredItems(node, vs, first, next))
    ensures EachConforms(node, ws) && ShredItems(node, ws, first, next) == cols && |ws| == |vs|
    decreases node, 2, |vs|
  {
    hide Shred, Conforms, Leaves, Zip;
    ws := [];
    if vs == [] {
      SameEmpties(cols, Leaves(node));
    } else {
      hide AllSameShape;
      var x, y := ShapeCut(cols, Shred(node, vs[0], first), ShredItems(node, vs[1..], next, next));
      var w := Refill(node, vs[0], first, x);
      var more := RefillItems(node, vs[1..], next, next, y);
      ws := [w] + more;
      assert ws[1..] == more;
    }
  }

  lemma {:induction false} SameEmpties(cols: Columns, n: nat)
    requires AllSameShape(cols, Empties(n))
    ensures cols == Empties(n)
  {
    forall i | 0 <= i < n ensures cols[i] == [] {
      assert SameShape(cols[i], []);
    }
  }

  lemma {:induction false} RefillRecords(fields: seq<Node>, records: seq<Value>, cols: Columns) returns (read: seq<Value>)
    requires AllRecords(fields, records) && AllSameShape(cols, ShredRecords(fields, records))
    ensures AllRecords(fields, read) && ShredRecords(fields, read) == cols && |read| == |records|
  {
    hide ShredFields, AllConform, Zip, SameShape;
    read := [];
    if records == [] {
      SameEmpties(cols, LeavesOf(fields));
    } else {
      var x, y := ShapeCut(cols, ShredFields(fields, records[0].fields, 0), ShredRecords(fields, records[1..]));
      var w := RefillFields(fields, records[0].fields, 0, x);
      var more := RefillRecords(fields, records[1..], y);
      read := [Record(w)] + more;
      assert read[1..] == more;
    }
  }
}
