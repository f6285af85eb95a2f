/**
Columns as levels and values in pages, the triplets they stand for, and the buffered column
cursors that hand these out one by one, refilled in batches that end with the pages.
 */
module RecordReading {
  import opened Options
  import opened Bits
  import opened Records
  import opened Assembly

  // ----- A column as levels and values -----

  /** What is left of a data page: the levels, and the values that are not null. */
  datatype Page = Page(defs: seq<nat>, reps: seq<nat>, values: seq<Atom>)

  function CountMax(defs: seq<nat>, max: nat): (n: nat)
    ensures n <= |defs|
  {
    if defs == [] then 0 else (if defs[0] == max then 1 else 0) + CountMax(defs[1..], max)
  }

  predicate InRange(page: Page, def: nat, rep: nat) {
    && |page.defs| == |page.reps| && |page.values| == CountMax(page.defs, def)
    && (forall i :: 0 <= i < |page.defs| ==> page.defs[i] <= def && page.reps[i] <= rep)
  }

  predicate AllInRange(pages: seq<Page>, def: nat, rep: nat) {
    forall i :: 0 <= i < |pages| ==> InRange(pages[i], def, rep)
  }

  /** Levels and values as triplets: those at the maximum definition level get the values. */
  function Triplets(defs: seq<nat>, reps: seq<nat>, values: seq<Atom>, max: nat): (r: seq<Triplet>)
    requires |defs| == |reps| && |values| == CountMax(defs, max)
    ensures |r| == |defs|
  {
    if defs == [] then []
    else if defs[0] == max then
      [Triplet(defs[0], reps[0], Some(values[0]))] + Triplets(defs[1..], reps[1..], values[1..], max)
    else [Triplet(defs[0], reps[0], None)] + Triplets(defs[1..], reps[1..], values, max)
  }

  function PageTriplets(page: Page, def: nat): seq<Triplet>
    requires |page.defs| == |page.reps| && |page.values| == CountMax(page.defs, def)
  {
    Triplets(page.defs, page.reps, page.values, def)
  }

  function AllTriplets(pages: seq<Page>, def: nat, rep: nat): seq<Triplet>
    requires AllInRange(pages, def, rep)
  {
    if pages == [] then [] else PageTriplets(pages[0], def) + AllTriplets(pages[1..], def, rep)
  }

  /** The numbers of levels of the pages that have any. */
  function Sizes(pages: seq<Page>): seq<nat> {
    if pages == [] then []
    else if pages[0].defs == [] then Sizes(pages[1..])
    else [|pages[0].defs|] + Sizes(pages[1..])
  }

  /** A batch of `n` levels is as large as that, unless its page ends before. */
  function BatchOf(sizes: seq<nat>, n: nat): nat {
    if sizes == [] then 0 else if n < sizes[0] then n else sizes[0]
  }

  /** What it leaves of the pages. */
  function AfterBatch(sizes: seq<nat>, n: nat): seq<nat> {
    if sizes == [] then [] else if n < sizes[0] then [sizes[0] - n] + sizes[1..] else sizes[1..]
  }

  lemma {:induction false} CountSplit(a: seq<nat>, n: nat, max: nat)
    requires n <= |a|
    ensures CountMax(a, max) == CountMax(a[..n], max) + CountMax(a[n..], max)
  {
    if n > 0 {
      assert a[..n][1..] == a[1..][..n - 1];
      CountSplit(a[1..], n - 1, max);
    } else {
      assert a[n..] == a;
    }
  }

  lemma {:induction false} TripletsHead(defs: seq<nat>, reps: seq<nat>, values: seq<Atom>, max: nat)
    requires |defs| == |reps| && |values| == CountMax(defs, max) && defs != []
    ensures var c := if defs[0] == max then 1 else 0;
      && c <= |values| && |values[c..]| == CountMax(defs[1..], max)
      && Triplets(defs, reps, values, max)
        == [Triplet(defs[0], reps[0], if c == 1 then Some(values[0]) else None)]
          + Triplets(defs[1..], reps[1..], values[c..], max)
  {
  }

  lemma {:induction false} TripletsNone(max: nat)
    ensures Triplets([], [], [], max) == []
  {
  }

  lemma {:induction false} TripletsSplit(defs: seq<nat>, reps: seq<nat>, values: seq<Atom>, max: nat, n: nat, k: nat)
    requires |defs| == |reps| && |values| == CountMax(defs, max) && n <= |defs| && k == CountMax(defs[..n], max)
    ensures k <= |values| && |values| - k == CountMax(defs[n..], max)
    ensures Triplets(defs, reps, values, max)
      == Triplets(defs[..n], reps[..n], values[..k], max) + Triplets(defs[n..], reps[n..], values[k..], max)
  {
    hide Triplets, CountMax;
    CountSplit(defs, n, max);
    if n == 0 {
      TripletsNone(max);
      assert defs[n..] == defs && reps[n..] == reps && values[k..] == values;
    } else {
      var c := if defs[0] == max then 1 else 0;
      TripletsHead(defs, reps, values, max);
      TripletsHead(defs[..n], reps[..n], values[..k], max);
      DropOfTake(defs, 1, n);
      DropOfTake(reps, 1, n);
      DropOfTake(values, c, k);
      DropDrop(values, c, k - c);
      DropDrop(defs, 1, n - 1);
      DropDrop(reps, 1, n - 1);
      TripletsSplit(defs[1..], reps[1..], values[c..], max, n - 1, k - c);
    }
  }

  function Taken(page: Page, k: nat, def: nat): Page
    requires k <= |page.defs| == |page.reps| && |page.values| == CountMax(page.defs, def)
  {
    CountSplit(page.defs, k, def);
    Page(page.defs[..k], page.reps[..k], page.values[..CountMax(page.defs[..k], def)])
  }

  function Left(page: Page, k: nat, def: nat): Page
    requires k <= |page.defs| == |page.reps| && |page.values| == CountMax(page.defs, def)
  {
    CountSplit(page.defs, k, def);
    Page(page.defs[k..], page.reps[k..], page.values[CountMax(page.defs[..k], def)..])
  }

  lemma {:induction false} PageSplit(page: Page, k: nat, def: nat, rep: nat)
    requires InRange(page, def, rep) && k <= |page.defs|
    ensures InRange(Taken(page, k, def), def, rep) && InRange(Left(page, k, def), def, rep)
    ensures PageTriplets(page, def) == PageTriplets(Taken(page, k, def), def) + PageTriplets(Left(page, k, def), def)
  {
    hide Triplets;
    CountSplit(page.defs, k, def);
    TripletsSplit(page.defs, page.reps, page.values, def, k, CountMax(page.defs[..k], def));
  }

  lemma {:induction false} EmptyPage(page: Page, def: nat)
    requires page.defs == [] && page.reps == [] && page.values == []
    ensures InRange(page, def, 0) && PageTriplets(page, def) == []
  {
  }

  /** A batch of `n` taken from the first page. */
  lemma {:induction false} SizesOfLeft(pages: seq<Page>, n: nat, k: nat, def: nat, rep: nat)
    requires pages != [] && n > 0 && InRange(pages[0], def, rep) && k == Min(n, |pages[0].defs|)
    ensures if pages[0].defs == [] then Sizes(pages[1..]) == Sizes(pages)
      else
        && k == BatchOf(Sizes(pages), n)
        && Sizes([Left(pages[0], k, def)] + pages[1..]) == AfterBatch(Sizes(pages), n)
  {
    hide CountMax;
    var all := [Left(pages[0], k, def)] + pages[1..];
    assert all[1..] == pages[1..];
  }

  /** The first triplet of a page and the page after it. */
  lemma {:induction false} FirstTriplet(page: Page, def: nat, rep: nat)
    requires InRange(page, def, rep) && page.defs != []
    ensures var c := if page.defs[0] == def then 1 else 0;
      && c <= |page.values|
      && var after := Page(page.defs[1..], page.reps[1..], page.values[c..]);
      && InRange(after, def, rep)
      && PageTriplets(page, def)
        == [Triplet(page.defs[0], page.reps[0], if c == 1 then Some(page.values[0]) else None)] + PageTriplets(after, def)
  {
  }

  // ----- Consumer -----

  class Consumer {
    var calls: seq<Event>

    constructor ()
      ensures calls == []
    {
      calls := [];
    }

    method Call(e: Event)
      modifies this
      ensures calls == old(calls) + [e]
    {
      calls := calls + [e];
    }
  }

  // ----- One column -----

  class TypedPrimitiveReader {
    const def_level: nat
    const rep_level: nat
    const batch_size: nat
    var source: seq<Page>  // what the column chunk reader has not handed out yet
    var def_levels: seq<nat>
    var rep_levels: seq<nat>
    var values: seq<Atom>
    var levels_offset: nat
    var values_offset: nat
    var levels_buffered: nat
    var values_buffered: nat
    ghost var rest: seq<Triplet>  // the triplets that `next` will return

    /** What has been read from the source but not returned yet. */
    ghost function Buffer(): Page
      reads this
      requires levels_offset <= |def_levels| == |rep_levels| && values_offset <= |values|
    {
      Page(def_levels[levels_offset..], rep_levels[levels_offset..], values[values_offset..])
    }

    ghost predicate Valid()
      reads this
    {
      && batch_size > 0 && AllInRange(source, def_level, rep_level)
      && levels_offset <= levels_buffered == |def_levels| == |rep_levels|
      && values_offset <= values_buffered == |values|
      && InRange(Buffer(), def_level, rep_level)
      && rest == PageTriplets(Buffer(), def_level) + AllTriplets(source, def_level, rep_level)
    }

    constructor (def_level: nat, rep_level: nat, source: seq<Page>, batch_size: nat)
      requires batch_size > 0 && AllInRange(source, def_level, rep_level)
      ensures Valid() && rest == AllTriplets(source, def_level, rep_level)
      ensures this.def_level == def_level && this.rep_level == rep_level
    {
      this.def_level, this.rep_level, this.batch_size, this.source := def_level, rep_level, batch_size, source;
      def_levels, rep_levels, values := [], [], [];
      levels_offset, values_offset, levels_buffered, values_buffered := 0, 0, 0, 0;
      rest := AllTriplets(source, def_level, rep_level);
    }

    /** Take the next levels and their values from the source: at most `n` levels, all from one
        page, and none only at the end of the column. */
    method ReadBatch(n: nat) returns (batch: Page)
      requires n > 0 && AllInRange(source, def_level, rep_level)
      modifies `source
      ensures AllInRange(source, def_level, rep_level) && InRange(batch, def_level, rep_level)
      ensures batch.defs == [] ==> AllTriplets(source, def_level, rep_level) == []
      ensures |batch.defs| == BatchOf(old(Sizes(source)), n) && Sizes(source) == AfterBatch(old(Sizes(source)), n)
      ensures PageTriplets(batch, def_level) + AllTriplets(source, def_level, rep_level)
        == old(AllTriplets(source, def_level, rep_level))
    {
      hide Triplets, CountMax;
      while source != [] && source[0].defs == []
        invariant AllInRange(source, def_level, rep_level)
        invariant AllTriplets(source, def_level, rep_level) == old(AllTriplets(source, def_level, rep_level))
        invariant Sizes(source) == old(Sizes(source))
        decreases |source|
      {
        EmptyPage(source[0], def_level);
        source := source[1..];
      }
      if source == [] {
        batch := Page([], [], []);
        EmptyPage(batch, def_level);
      } else {
        var page := source[0];
        var k := Min(n, |page.defs|);
        PageSplit(page, k, def_level, rep_level);
        batch := Taken(page, k, def_level);
        var left := Left(page, k, def_level);
        Associate(PageTriplets(batch, def_level), PageTriplets(left, def_level), AllTriplets(source[1..], def_level, rep_level));
        var others := source[1..];
        source := [left] + others;
        assert source[1..] == others;
      }
    }

    method RefillWhenEmpty()
      requires Valid()
      modifies this
      ensures Valid() && rest == old(rest)
      ensures rest != [] ==> levels_offset < levels_buffered
      ensures rest == [] ==> levels_buffered == 0
      ensures old(levels_offset < levels_buffered) ==> Buffer() == old(Buffer()) && source == old(source)
      ensures old(levels_offset == levels_buffered) ==>
        && levels_buffered == BatchOf(old(Sizes(source)), batch_size) && levels_offset == 0
        && Sizes(source) == AfterBatch(old(Sizes(source)), batch_size)
    {
      hide Triplets, CountMax, AllTriplets;
      if levels_offset == levels_buffered {
        EmptyPage(Buffer(), def_level);
        var batch := ReadBatch(batch_size);
        def_levels, rep_levels, values := batch.defs, batch.reps, batch.values;
        levels_buffered, values_buffered := |batch.defs|, |batch.values|;
        values_offset, levels_offset := 0, 0;
        assert Buffer() == batch;
      }
    }

    method CurrentLevels() returns (levels: Levels)
      requires Valid()
      modifies this
      ensures Valid() && rest == old(rest)
      ensures levels == if rest == [] then Levels(-1, -1) else Levels(rest[0].def_level, rest[0].rep_level)
    {
      hide AllTriplets, Triplets, CountMax;
      RefillWhenEmpty();
      if levels_buffered == 0 {
        return NO_LEVELS;
      }
      FirstTriplet(Buffer(), def_level, rep_level);
      return Levels(CurrentDefLevel(), CurrentRepLevel());
    }

    function CurrentDefLevel(): nat
      reads this
      requires levels_offset < |def_levels|
    {
      if def_level > 0 then def_levels[levels_offset] else 0
    }

    function CurrentRepLevel(): nat
      reads this
      requires levels_offset < |rep_levels|
    {
      if rep_level > 0 then rep_levels[levels_offset] else 0
    }

    /** The next triplet of the column, or nothing at its end. */
    method Next() returns (t: Option<Triplet>)
      requires Valid()
      modifies this
      ensures Valid()
      ensures old(rest) == [] ==> t == None && rest == []
      ensures old(rest) != [] ==> t == Some(old(rest)[0]) && rest == old(rest)[1..]
      ensures t.Some? ==> (t.value.value.None? <==> t.value.def_level < def_level)
    {
      hide AllTriplets, Triplets, CountMax;
      RefillWhenEmpty();
      if levels_buffered == 0 {
        return None;
      }
      FirstTriplet(Buffer(), def_level, rep_level);
      var def, rep := CurrentDefLevel(), CurrentRepLevel();
      ghost var buffer := Buffer();
      levels_offset := levels_offset + 1;
      if def < def_level {
        t := Some(Triplet(def, rep, None));
      } else {
        assert values_offset != values_buffered;
        t := Some(Triplet(def, rep, Some(values[values_offset])));
        values_offset := values_offset + 1;
      }
      rest := rest[1..];
    }
  }
}
