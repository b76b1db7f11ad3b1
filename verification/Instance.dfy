/** Array instances: a row of top-level pages, the number of items, and the page that every page
    starts out as and is set back to by a reset. */
module Instances {
  import opened Options
  import opened Slabs
  import opened Tables
  import opened RadixTree
  import opened Rooms
  import opened Balances
  import opened Sharings
  import opened Chunks
  import opened ArrayStorages
  import opened ArrayReads
  import opened ArrayPaths
  import opened ArrayDrops
  import opened ArrayFill

  datatype Instance = Instance(resetPage: Ptr, pages: seq<Ptr>, size: nat)

  /** The array an instance stands for: the value it was filled with at first, and its items. */
  datatype ArrayValue<T> = ArrayValue(fill: T, items: seq<T>)

  function PtrsOf(inst: Instance): multiset<Ptr> {
    multiset(inst.pages) + multiset{inst.resetPage}
  }

  /** The instance stands for array `a`. */
  ghost predicate StandsFor<T>(lv: Levels<T>, inst: Instance, a: ArrayValue<T>) {
    && |inst.pages| == DivCeil(inst.size, Size(lv)) && |a.items| == inst.size
    && (forall i: nat :: i < inst.size ==> Through(lv, inst.pages, i) == Some(a.items[i]))
    && Filled(lv, inst.resetPage, a.fill)
  }

  // ---------- Writes to one instance ----------

  /** The row `pages` was overwritten with `buf` from position `index` on, and is now `pages'`. */
  ghost predicate RowWrote<T>(a: Levels<T>, b: Levels<T>, live: multiset<Ptr>, pages: seq<Ptr>, pages': seq<Ptr>,
                              index: nat, buf: seq<T>) {
    && Height(a) == Height(b) && |pages'| == |pages|
    && Sound(b, live + multiset(pages')) && SameReads(a, b, live)
    && forall i: nat :: Through(b, pages', i) == if index <= i < index + |buf| then Some(buf[i - index])
      else Through(a, pages, i)
  }

  lemma RowStart<T>(lv: Levels<T>, live: multiset<Ptr>, pages: seq<Ptr>, index: nat)
    requires Sound(lv, live + multiset(pages))
    ensures RowWrote(lv, lv, live, pages, pages, index, [])
  {
  }

  lemma RowCompose<T>(a: Levels<T>, b: Levels<T>, c: Levels<T>, live: multiset<Ptr>, pages: seq<Ptr>, pages': seq<Ptr>,
                      pages'': seq<Ptr>,
                      index: nat, buf: seq<T>, buf': seq<T>)
    requires RowWrote(a, b, live, pages, pages', index, buf)
    requires RowWrote(b, c, live, pages', pages'', index + |buf|, buf')
    ensures RowWrote(a, c, live, pages, pages'', index, buf + buf')
  {
  }

  lemma PageIsLive(live: multiset<Ptr>, pages: seq<Ptr>, e: nat)
    requires e < |pages|
    ensures pages[e] in live + multiset(pages)
  {
  }

  lemma OtherPagesLive(live: multiset<Ptr>, pages: seq<Ptr>, e: nat, c: Ptr)
    requires e < |pages|
    ensures live <= live + multiset(pages) - multiset{pages[e]}
    ensures forall k :: 0 <= k < |pages| && k != e ==> pages[k] in live + multiset(pages) - multiset{pages[e]}
    ensures live + multiset(pages[e := c]) == live + multiset(pages) - multiset{pages[e]} + multiset{c}
  {
    assert pages[e] in multiset(pages);
    forall k | 0 <= k < |pages| && k != e ensures pages[k] in live + multiset(pages) - multiset{pages[e]} {
      assert pages[k] in multiset(pages);
      if pages[k] == pages[e] {
        TwiceInPage(pages, e, k);
      }
    }
    assert multiset(pages[e := c]) == multiset(pages) - multiset{pages[e]} + multiset{c};
  }

  /** A write to one tree of the row is a write to the row. */
  lemma RowStep<T>(a: Levels<T>, b: Levels<T>, live: multiset<Ptr>, pages: seq<Ptr>, e: nat, c: Ptr, off: nat,
                   buf: seq<T>)
    requires e < |pages| && off + |buf| <= Size(a)
    requires Wrote(a, b, live + multiset(pages), pages[e], c, off, buf)
    ensures RowWrote(a, b, live, pages, pages[e := c], Start(a, e) + off, buf)
  {
    hide Sound, At, Through, Start, Size;
    OtherPagesLive(live, pages, e, c);
    var rest := live + multiset(pages) - multiset{pages[e]};
    forall q, i: nat | q in live ensures At(b, q, i) == At(a, q, i) {
      assert q in rest;
    }
    var pages': seq<Ptr>, at: nat := pages[e := c], Start(a, e) + off;
    forall i: nat ensures Through(b, pages', i) == if at <= i < at + |buf| then Some(buf[i - at])
      else Through(a, pages, i) {
      ReplaceThrough(a, b, pages, e, c, off, buf, i);
    }
    assert Sound(b, live + multiset(pages'));
    assert SameReads(a, b, live);
    assert |pages'| == |pages|;
  }

  lemma RowStandsFor<T>(a: Levels<T>, b: Levels<T>, live: multiset<Ptr>, inst: Instance, pages': seq<Ptr>,
                        v: ArrayValue<T>, index: nat, buf: seq<T>)
    requires StandsFor(a, inst, v) && inst.resetPage in live && index + |buf| <= inst.size
    requires RowWrote(a, b, live, inst.pages, pages', index, buf)
    ensures StandsFor(b, inst.(pages := pages'), ArrayValue(v.fill, v.items[..index] + buf + v.items[index + |buf|..]))
  {
    hide Sound, At, Through;
    SizeFromHeight(a, b);
    var items := v.items[..index] + buf + v.items[index + |buf|..];
    forall i: nat | i < inst.size ensures Through(b, pages', i) == Some(items[i]) {
      assert Through(a, inst.pages, i) == Some(v.items[i]);
    }
    forall i: nat | i < Size(b) ensures At(b, inst.resetPage, i) == Some(v.fill) {
      assert At(a, inst.resetPage, i) == Some(v.fill);
    }
  }

  /** What other writes leave alone keeps its meaning. */
  lemma StandsForStays<T>(a: Levels<T>, b: Levels<T>, live: multiset<Ptr>, inst: Instance, v: ArrayValue<T>)
    requires StandsFor(a, inst, v) && PtrsOf(inst) <= live
    requires Height(a) == Height(b) && SameReads(a, b, live)
    ensures StandsFor(b, inst, v)
  {
    hide At, Through;
    SizeFromHeight(a, b);
    forall c | c in inst.pages ensures c in live {
      assert c in multiset(inst.pages);
      assert c in PtrsOf(inst);
    }
    assert inst.resetPage in PtrsOf(inst);
    forall i: nat | i < inst.size ensures Through(b, inst.pages, i) == Some(v.items[i]) {
      SameThrough(a, b, inst.pages, i);
    }
    forall i: nat | i < Size(b) ensures At(b, inst.resetPage, i) == Some(v.fill) {
      assert At(a, inst.resetPage, i) == Some(v.fill);
    }
  }

  /** One instance now stands for `v`, and everything else reads as before. */
  ghost predicate Updated<T>(a: Levels<T>, b: Levels<T>, live: multiset<Ptr>, inst: Instance, v: ArrayValue<T>) {
    Height(a) == Height(b) && Sound(b, live + PtrsOf(inst)) && SameReads(a, b, live) && StandsFor(b, inst, v)
  }

  lemma RowUpdated<T>(a: Levels<T>, b: Levels<T>, live: multiset<Ptr>, inst: Instance, pages': seq<Ptr>,
                      v: ArrayValue<T>, index: nat, buf: seq<T>)
    requires StandsFor(a, inst, v) && index + |buf| <= inst.size
    requires RowWrote(a, b, live + multiset{inst.resetPage}, inst.pages, pages', index, buf)
    ensures Updated(a, b, live, inst.(pages := pages'),
      ArrayValue(v.fill, v.items[..index] + buf + v.items[index + |buf|..]))
  {
    RowStandsFor(a, b, live + multiset{inst.resetPage}, inst, pages', v, index, buf);
    hide Sound, At, Through, StandsFor;
    assert live + multiset{inst.resetPage} + multiset(pages') == live + PtrsOf(inst.(pages := pages'));
    assert Sound(b, live + PtrsOf(inst.(pages := pages')));
    forall q, i: nat | q in live ensures At(b, q, i) == At(a, q, i) {
      assert q in live + multiset{inst.resetPage};
    }
  }

  lemma RowLive(live: multiset<Ptr>, inst: Instance)
    ensures live + PtrsOf(inst) == live + multiset{inst.resetPage} + multiset(inst.pages)
  {
  }

  /** The page and the position in it that hold item `index` of an instance. */
  lemma ItemPage<T>(lv: Levels<T>, inst: Instance, v: ArrayValue<T>, index: nat)
    requires StandsFor(lv, inst, v) && index < inst.size
    ensures var e, off := PageOf(index, Size(lv)), OffsetOf(index, Size(lv));
      && e < |inst.pages| && off < Size(lv) && Start(lv, e) + off == index
      && At(lv, inst.pages[e], off) == Some(v.items[index])
  {
    var d := Size(lv);
    var e, off := PageOf(index, d), OffsetOf(index, d);
    EntryOf(index, d, |inst.pages|);
    DivCeilLeast(inst.size, d, |inst.pages|);
    StartIsProduct(lv, e);
    hide Size, DivCeil, PageOf, OffsetOf;
    ThroughEntry(lv, inst.pages, e, off);
  }

  /** The pages a run touches, and where it enters the first of them. */
  ghost predicate Touches(d: nat, index: nat, len: nat, first: nat, last: nat, pageIndex: nat) {
    d > 0 && first == PageOf(index, d) && last == DivCeil(index + len, d) && pageIndex == OffsetOf(index, d)
  }

  /** The items of the top-level pages from number `i` on, one page chained to the next. */
  ghost function IterRow<T>(lv: Levels<T>, live: multiset<Ptr>, pages: seq<Ptr>, index: nat, len: nat, first: nat,
                            last: nat, pageIndex: nat, i: nat): seq<T>
    requires Sound(lv, live) && forall e :: 0 <= e < |pages| ==> pages[e] in live
    requires Touches(Size(lv), index, len, first, last, pageIndex) && first + i <= last <= |pages|
    decreases last - i
  {
    if first + i == last then []
    else
      RunOfPage(lv, index, len, first, last, pageIndex, i);
      var entry := Entry(i, pageIndex);
      var lenLeft := len - From(i, Size(lv), pageIndex);
      ArrayReads.IterRange(lv, live, pages[first + i], entry, Min(Size(lv) - entry, lenLeft))
      + IterRow(lv, live, pages, index, len, first, last, pageIndex, i + 1)
  }

  lemma RunOfPage<T>(lv: Levels<T>, index: nat, len: nat, first: nat, last: nat, pageIndex: nat, i: nat)
    requires Touches(Size(lv), index, len, first, last, pageIndex) && first + i < last
    ensures var d := Size(lv);
      && From(i, d, pageIndex) <= To(i, d, pageIndex, len) <= len
      && Min(d - Entry(i, pageIndex), len - From(i, d, pageIndex)) == To(i, d, pageIndex, len) - From(i, d, pageIndex)
      && Entry(i, pageIndex) + (To(i, d, pageIndex, len) - From(i, d, pageIndex)) <= d
      && Start(lv, first + i) + Entry(i, pageIndex) == index + From(i, d, pageIndex)
      && To(i, d, pageIndex, len) == if first + i + 1 == last then len else From(i + 1, d, pageIndex)
  {
    hide From, To, Entry, Start, Size, PageOf, DivCeil, OffsetOf;
    CutAtStart(index, len, Size(lv), 0, first, last, pageIndex);
    CutAtEntry(lv, index, len, i, first, last, pageIndex);
    CutLength(i, Size(lv), pageIndex, len);
  }

  lemma {:induction false} IterRowYields<T>(lv: Levels<T>, live: multiset<Ptr>, inst: Instance, v: ArrayValue<T>,
                                            index: nat, len: nat,
                                            first: nat, last: nat, pageIndex: nat, i: nat, from: nat)
    requires Sound(lv, live) && forall e :: 0 <= e < |inst.pages| ==> inst.pages[e] in live
    requires StandsFor(lv, inst, v) && index + len <= inst.size == |v.items|
    requires Touches(Size(lv), index, len, first, last, pageIndex) && first + i <= last <= |inst.pages|
    requires from == if first + i == last then len else From(i, Size(lv), pageIndex)
    requires from <= len
    ensures IterRow(lv, live, inst.pages, index, len, first, last, pageIndex, i) == v.items[index + from..index + len]
    decreases last - i
  {
    hide Sound, At, From, To, Entry, Touches, Start, Size, Through, StandsFor, ArrayReads.IterRange, IterRow;
    IterRowUnfolds(lv, live, inst.pages, index, len, first, last, pageIndex, i);
    if first + i < last {
      var d := Size(lv);
      RunOfPage(lv, index, len, first, last, pageIndex, i);
      var to, entry, c := To(i, d, pageIndex, len), Entry(i, pageIndex), inst.pages[first + i];
      IterRowYields(lv, live, inst, v, index, len, first, last, pageIndex, i + 1, to);
      IterRangeReads(lv, live, c, entry, to - from);
      PageYields(ArrayReads.IterRange(lv, live, c, entry, to - from), lv, inst, v, first + i, entry, index + from);
      SliceJoin(v.items, index + from, index + to, index + len);
    }
  }

  lemma IterRowUnfolds<T>(lv: Levels<T>, live: multiset<Ptr>, pages: seq<Ptr>, index: nat, len: nat, first: nat,
                          last: nat, pageIndex: nat, i: nat)
    requires Sound(lv, live) && forall e :: 0 <= e < |pages| ==> pages[e] in live
    requires Touches(Size(lv), index, len, first, last, pageIndex) && first + i <= last <= |pages|
    ensures first + i == last ==> IterRow(lv, live, pages, index, len, first, last, pageIndex, i) == []
    ensures first + i < last ==>
      var from, to, entry := From(i, Size(lv), pageIndex), To(i, Size(lv), pageIndex, len), Entry(i, pageIndex);
      && from <= to && entry + (to - from) <= Size(lv)
      && IterRow(lv, live, pages, index, len, first, last, pageIndex, i)
           == ArrayReads.IterRange(lv, live, pages[first + i], entry, to - from) + IterRow(lv, live, pages, index, len,
             first, last, pageIndex, i + 1)
  {
    hide Sound, At, From, To, Entry, Touches, Start, Size, ArrayReads.IterRange;
    if first + i < last {
      RunOfPage(lv, index, len, first, last, pageIndex, i);
    }
  }

  lemma PageYields<T>(here: seq<T>, lv: Levels<T>, inst: Instance, v: ArrayValue<T>, e: nat, off: nat, at: nat)
    requires
      && StandsFor(lv, inst, v) && e < |inst.pages| && off + |here| <= Size(lv) && Yields(here, lv, inst.pages[e], off)
    requires Start(lv, e) + off == at && at + |here| <= inst.size
    ensures here == v.items[at..at + |here|]
  {
    hide At, Through, Size, Start, DivCeil;
    forall k | 0 <= k < |here| ensures here[k] == v.items[at + k] {
      ThroughEntry(lv, inst.pages, e, off + k);
    }
  }

  lemma SliceJoin<T>(s: seq<T>, a: nat, b: nat, c: nat)
    requires a <= b <= c <= |s|
    ensures s[a..c] == s[a..b] + s[b..c]
  {
  }

  class ArrayStorage<T> {
    const dataTable: Table<seq<T>>
    const pageTables: seq<Table<seq<Ptr>>>

    /** An empty storage with `layers` levels of page tables. */
    constructor (layers: nat)
      ensures Valid() && |pageTables| == layers
      ensures fresh(dataTable) && forall t :: t in pageTables ==> fresh(t)
      ensures Sound(Tree(), multiset{}) && EmptyTables(Tree()) && Balance(Tree()) == 0
    {
      var data := new Table<seq<T>>();
      var tables: seq<Table<seq<Ptr>>> := [];
      while |tables| < layers
        invariant |tables| <= layers && data.Valid() && data.Value() == Slab([], 0) && fresh(data)
        invariant forall i :: 0 <= i < |tables| ==>
          tables[i].Valid() && tables[i].Value() == Slab([], 0) && fresh(tables[i])
        invariant Separate(data, tables)
      {
        var t := new Table<seq<Ptr>>();
        tables := tables + [t];
      }
      dataTable, pageTables := data, tables;
      new;
      LevelsOfBuild(dataTable, pageTables);
      EmptyTree(Values(pageTables), dataTable.Value());
    }

    ghost predicate Valid()
      reads dataTable, pageTables
    {
      Separate(dataTable, pageTables) && AllValid(dataTable, pageTables)
    }

    ghost function Tree(): (lv: Levels<T>)
      reads dataTable, pageTables
      requires Valid()
      ensures Height(lv) == |pageTables|
    {
      LevelsOf(dataTable, pageTables)
    }

    function ItemsPerTopLevelPage(): nat {
      Power64(|pageTables| + 1)
    }

    lemma TopLevelSize()
      requires Valid()
      ensures ItemsPerTopLevelPage() == Size(Tree()) && ItemsPerTopLevelPage() / PAGE_SIZE == Span(Tree())
    {
      SpanIsPower(Tree());
      SpanOfChild(Tree());
    }

    method Get(inst: Instance, index: nat, ghost live: multiset<Ptr>, ghost v: ArrayValue<T>) returns (item: Option<T>)
      requires Valid() && Sound(Tree(), live) && PtrsOf(inst) <= live && StandsFor(Tree(), inst, v)
      ensures item == if index < |v.items| then Some(v.items[index]) else None
    {
      hide Sound, Size, PageOf, OffsetOf, Through, At, Start, WellFormed;
      if index >= inst.size {
        return None;
      }
      TopLevelSize();
      ItemPage(Tree(), inst, v, index);
      var page := PageOf(index, ItemsPerTopLevelPage());
      PageInLive(live, inst, page);
      var value := ArrayReads.Get(dataTable, pageTables, inst.pages[page], OffsetOf(index, ItemsPerTopLevelPage()),
                                  live);
      item := Some(value);
    }

    /** A new array of `size` items, all of them `value`. */
    method NewInstance(value: T, size: nat, ghost live: multiset<Ptr>) returns (r: Outcome<Instance>)
      requires Valid() && Sound(Tree(), live)
      modifies dataTable, pageTables
      ensures Valid() && (r.Overflow? ==> OutOfRoom(Tree()))
      ensures old(TreeFits(Tree(), 1, PAGE_SIZE + DivCeil(size, Size(Tree())))) ==> r.Done?
      ensures DivCeil(size, old(Size(Tree()))) >= LIMIT ==> r.Overflow?
      ensures r.Done? ==> TreeGrew(old(Tree()), Tree(), 1, PAGE_SIZE + DivCeil(size, old(Size(Tree()))))
      ensures r.Done? ==> Updated(old(Tree()), Tree(), live, r.value, ArrayValue(value, Repeat(value, size)))
      ensures r.Done? ==> Balance(Tree()) == old(Balance(Tree())) + |PtrsOf(r.value)|
    {
      hide Sound, Size, DivCeil, Through, At, Start, WellFormed, SameReads, LevelsOf, Separate, AllValid, Filled,
           Unchanged,
           StandsFor, OutOfRoom, TreeFits, TreeGrew, PagesFit, PagesGrew, Cloned, CloneFits, Balance;
      ghost var a := Tree();
      TopLevelSize();
      var pagesNeeded := DivCeil(size, ItemsPerTopLevelPage());
      FirstPageFits(a, pagesNeeded);
      var p :- AddTopLevelPage(dataTable, pageTables, value, live);
      ghost var b := Tree();
      var pages := Copies(p, pagesNeeded);
      FilledInUse(b, live + multiset{p}, p, pages);
      CopiesFit(a, b, live, p, pagesNeeded);
      ClonedBalance(b, multiset(pages));
      var _ :- CloneAll(dataTable, pageTables, pages, live + multiset{p});
      var inst := Instance(p, pages, size);
      FilledStays(a, b, Tree(), live, p, value);
      SizeFromHeight(a, Tree());
      RowLive(live, inst);
      FilledStandsFor(Tree(), p, value, size);
      r := Done(inst);
    }

    /** Shares all pages of an instance with a second one; done exactly when all these references fit. */
    method CloneInstance(inst: Instance, ghost live: multiset<Ptr>) returns (copy: Outcome<Instance>)
      requires Valid() && Sound(Tree(), live) && PtrsOf(inst) <= live
      modifies dataTable, pageTables
      ensures Valid() && (copy.Overflow? ==> OutOfRoom(Tree()))
      ensures copy.Done? <==> CloneFits(old(Tree()), PtrsOf(inst))
      ensures copy.Done? ==>
        copy.value == inst && Tree() == Cloned(old(Tree()), PtrsOf(inst)) && Unchanged(old(Tree()), Tree())
          && Sound(Tree(), live + PtrsOf(inst))
    {
      hide Sound, At, WellFormed, LevelsOf, Separate, AllValid, Unchanged, TopInUse, OutOfRoom, Cloned, CloneFits,
           TopRefs,
           CloneTop;
      ghost var a := Tree();
      InstanceInUse(a, live, inst);
      ClonedMore(a, multiset(inst.pages), multiset{inst.resetPage});
      var _ :- CloneAll(dataTable, pageTables, inst.pages, live);
      ghost var b := Tree();
      UnchangedInUse(a, b, [inst.resetPage]);
      CloneTopKeeps(b, live + multiset(inst.pages), inst.resetPage);
      LastFits(a, multiset(inst.pages), inst.resetPage);
      var resetPage :- CloneTopPtr(dataTable, pageTables, inst.resetPage, live + multiset(inst.pages));
      UnchangedTrans(a, b, Tree());
      assert live + multiset(inst.pages) + multiset{inst.resetPage} == live + PtrsOf(inst);
      copy := Done(Instance(resetPage, inst.pages, inst.size));
    }

    /** Gives up the pages of an instance. The pointer to the reset page is not given up. */
    method DropInstance(inst: Instance, ghost live: multiset<Ptr>)
      requires Valid() && Sound(Tree(), live + PtrsOf(inst))
      modifies dataTable, pageTables
      ensures Valid()
      ensures Height(Tree()) == Height(old(Tree())) && Sound(Tree(), live) && SameReads(old(Tree()), Tree(), live)
      ensures TreeGrew(old(Tree()), Tree(), 0, 0)
      ensures Balance(Tree()) == old(Balance(Tree())) - |inst.pages|
    {
      hide Sound, At, WellFormed, LevelsOf, Separate, AllValid, SameReads, Released, Entries, Height, TreeGrew, Balance;
      ghost var a := Tree();
      ghost var live' := live + multiset{inst.resetPage};
      RowLive(live, inst);
      SameReadsRefl(a, live');
      TreeGrewRefl(a, 0, 0);
      var k := 0;
      assert live' + multiset(inst.pages[0..]) == live + PtrsOf(inst) by { assert inst.pages[0..] == inst.pages; }
      while k < |inst.pages|
        invariant 0 <= k <= |inst.pages|
        invariant Valid()
        invariant Sound(Tree(), live' + multiset(inst.pages[k..]))
        invariant SameReads(a, Tree(), live') && TreeGrew(a, Tree(), 0, 0) && Balance(Tree()) == Balance(a) - k
      {
        ghost var b, rest := Tree(), live' + multiset(inst.pages[k + 1..]);
        Take(inst.pages, k, live');
        DropTablePtr(dataTable, pageTables, inst.pages[k], rest);
        SameReadsTrans(a, b, Tree(), live', rest);
        ReleasedGrew(b, Tree(), rest, multiset{inst.pages[k]});
        TreeGrewTrans(a, b, Tree(), 0, 0, 0, 0);
        k := k + 1;
      }
      SoundFewer(Tree(), live' + multiset(inst.pages[k..]), live);
      SameReadsFewer(a, Tree(), live', live);
    }

    /** Sets every page back to the page the array started out with. */
    method Reset(inst: Instance, ghost live: multiset<Ptr>, ghost v: ArrayValue<T>) returns (r: Outcome<Instance>)
      requires Valid() && Sound(Tree(), live + PtrsOf(inst)) && StandsFor(Tree(), inst, v)
      modifies dataTable, pageTables
      ensures Valid() && (r.Overflow? ==> OutOfRoom(Tree()))
      ensures old(TreeFits(Tree(), 0, Changed(inst.pages, inst.resetPage))) ==> r.Done?
      ensures r.Done? ==> TreeGrew(old(Tree()), Tree(), 0, Changed(inst.pages, inst.resetPage))
      ensures r.Done? ==> Updated(old(Tree()), Tree(), live, r.value, v.(items := Repeat(v.fill, |v.items|)))
      ensures r.Done? ==> Balance(Tree()) == old(Balance(Tree()))
    {
      hide Sound, At, WellFormed, LevelsOf, Separate, AllValid, SameReads, StandsFor, Updated, Size, DivCeil, OutOfRoom,
           TreeFits, TreeGrew, Changed, Balance;
      ghost var a := Tree();
      ghost var live' := live + multiset{inst.resetPage};
      RowLive(live, inst);
      SameReadsRefl(a, live');
      TreeGrewRefl(a, 0, 0);
      var pages := inst.pages;
      var k := 0;
      ghost var used: nat, total := 0, Changed(inst.pages, inst.resetPage);
      while k < |pages|
        invariant 0 <= k <= |pages| == |inst.pages|
        invariant forall j :: 0 <= j < k ==> pages[j] == inst.resetPage
        invariant Valid()
        invariant Sound(Tree(), live' + multiset(pages))
        invariant SameReads(a, Tree(), live')
        invariant Balance(Tree()) == Balance(a)
        invariant TreeGrew(a, Tree(), 0, used) && used + Changed(pages, inst.resetPage) == total
      {
        if pages[k] != inst.resetPage {
          ghost var b := Tree();
          OneLess(pages, k, inst.resetPage);
          OneMoreFits(a, b, used, total);
          pages :- ResetPage(pages, k, inst.resetPage, a, live');
          TreeGrewTrans(a, b, Tree(), 0, used, 0, 1);
          used := used + 1;
        }
        k := k + 1;
      }
      ResetStandsFor(a, Tree(), live, inst, pages, v);
      TreeGrewMore(a, Tree(), 0, used, 0, total);
      r := Done(inst.(pages := pages));
    }

    method ResetPage(pages: seq<Ptr>, k: nat, resetPage: Ptr, ghost a: Levels<T>,
                     ghost live: multiset<Ptr>) returns (r: Outcome<seq<Ptr>>)
      requires Valid() && k < |pages| && resetPage in live
      requires Sound(Tree(), live + multiset(pages)) && SameReads(a, Tree(), live)
      modifies dataTable, pageTables
      ensures Valid() && (r.Overflow? ==> OutOfRoom(Tree()))
      ensures old(TreeFits(Tree(), 0, 1)) ==> r.Done?
      ensures r.Done? ==> TreeGrew(old(Tree()), Tree(), 0, 1) && Balance(Tree()) == old(Balance(Tree()))
      ensures r.Done? ==>
        r.value == pages[k := resetPage] && Sound(Tree(), live + multiset(r.value)) && SameReads(a, Tree(), live)
    {
      hide Sound, At, WellFormed, LevelsOf, Separate, AllValid, SameReads, Released, Entries, TopInUse, Unchanged,
           OutOfRoom,
           TreeFits, TreeGrew, TopRefs, CloneTop, Balance;
      ghost var b, rest := Tree(), live + multiset(pages) - multiset{pages[k]};
      OtherPagesLive(live, pages, k, resetPage);
      PageIsLive(live, pages, k);
      assert rest + multiset{pages[k]} == live + multiset(pages);
      DropTablePtr(dataTable, pageTables, pages[k], rest);
      ghost var c := Tree();
      SameReadsTrans(a, b, c, live, rest);
      ReleasedGrew(b, c, rest, multiset{pages[k]});
      SharedAgain(b, c, resetPage);
      LiveIsInUse(c, rest, resetPage);
      CloneTopBalance(c, resetPage);
      CloneTopKeeps(c, rest, resetPage);
      var p :- CloneTopPtr(dataTable, pageTables, resetPage, rest);
      SameReadsUnchanged(a, c, Tree(), live);
      r := Done(pages[k := p]);
    }

    /** The items an iterator over a range of the array yields; None when the range is out of bounds. */
    ghost function IterRange(inst: Instance, live: multiset<Ptr>, index: nat, len: nat): Option<seq<T>>
      requires Valid() && Sound(Tree(), live) && PtrsOf(inst) <= live
      requires |inst.pages| == DivCeil(inst.size, Size(Tree()))
      reads dataTable, pageTables
    {
      if index + len > inst.size then None
      else
        var d := Size(Tree());
        var first, last, pageIndex := PageOf(index, d), DivCeil(index + len, d), OffsetOf(index, d);
        DivCeilLeast(inst.size, d, |inst.pages|);
        CutAtStart(index, len, d, |inst.pages|, first, last, pageIndex);
        PagesInLive(live, inst);
        Some(IterRow(Tree(), live, inst.pages, index, len, first, last, pageIndex, 0))
    }

    /** The iterator yields exactly the items of the range, in order. */
    lemma IterRangeYields(inst: Instance, live: multiset<Ptr>, v: ArrayValue<T>, index: nat, len: nat)
      requires Valid() && Sound(Tree(), live) && PtrsOf(inst) <= live && StandsFor(Tree(), inst, v)
      ensures IterRange(inst, live, index, len) == if index + len <= |v.items| then Some(v.items[index..index + len])
        else None
    {
      hide Sound, At, From, To, Start, Size, Through, PageOf, OffsetOf, DivCeil, IterRow;
      if index + len <= inst.size {
        var d := Size(Tree());
        StandsForSize(Tree(), inst, v);
        CutAtStart(index, len, d, |inst.pages|, PageOf(index, d), DivCeil(index + len, d), OffsetOf(index, d));
        PagesInLive(live, inst);
        IterRowYields(Tree(), live, inst, v, index, len, PageOf(index, d), DivCeil(index + len, d), OffsetOf(index, d),
                      0, 0);
      }
    }

    /** Writes one item through the mutable reference that `get_mut` hands out; None when the index is
        out of bounds. */
    method Set(inst: Instance, index: nat, value: T, ghost live: multiset<Ptr>, ghost v: ArrayValue<T>)
      returns (r: Outcome<Option<Instance>>)
      requires Valid() && Sound(Tree(), live + PtrsOf(inst)) && StandsFor(Tree(), inst, v)
      modifies dataTable, pageTables
      ensures Valid() && (r.Overflow? ==> OutOfRoom(Tree()))
      ensures index >= |v.items| ==> r == Done(None) && Tree() == old(Tree())
      ensures old(PagesFit(Tree(), SharedIn(Tree(), inst.pages, index, index + 1))) ==> r.Done?
      ensures r.Done? ==> PagesPaid(old(Tree()), Tree(), old(SharedIn(Tree(), inst.pages, index, index + 1)))
      ensures r.Done? && index < |v.items| ==>
        r.value.Some? && Updated(old(Tree()), Tree(), live, r.value.value, v.(items := v.items[index := value]))
    {
      hide Sound, Size, PageOf, OffsetOf, Through, At, Start, WellFormed, SameReads, Wrote, RowWrote, LevelsOf,
           OutOfRoom,
           PagesFit, PagesPaid, Shared, SharedIn;
      ghost var a := Tree();
      NothingTaken(a, SharedIn(a, inst.pages, index, index + 1));
      if index >= inst.size {
        return Done(None);
      }
      TopLevelSize();
      ItemPage(a, inst, v, index);
      RowLive(live, inst);
      var page := PageOf(index, ItemsPerTopLevelPage());
      var off := OffsetOf(index, ItemsPerTopLevelPage());
      ghost var live' := live + multiset{inst.resetPage};
      PageIsLive(live', inst.pages, page);
      ghost var cost := RowCost(a, a, inst.pages, page, off, 1, index + 1, 0,
                                SharedIn(a, inst.pages, index, index + 1));
      var c :- ArrayPaths.Set(dataTable, pageTables, inst.pages[page], off, value, live' + multiset(inst.pages));
      RowStep(a, Tree(), live', inst.pages, page, c, off, [value]);
      RowUpdated(a, Tree(), live, inst, inst.pages[page := c], v, index, [value]);
      PagesPaidMore(a, Tree(), cost, SharedIn(a, inst.pages, index, index + 1));
      assert v.items[..index] + [value] + v.items[index + 1..] == v.items[index := value];
      r := Done(Some(inst.(pages := inst.pages[page := c])));
    }

    /** Writes `buf` from item `index` on, one top-level page after the other; None when the range is
        out of bounds. */
    method Write(inst: Instance, index: nat, buf: seq<T>, ghost live: multiset<Ptr>, ghost v: ArrayValue<T>)
      returns (r: Outcome<Option<Instance>>)
      requires Valid() && Sound(Tree(), live + PtrsOf(inst)) && StandsFor(Tree(), inst, v)
      modifies dataTable, pageTables
      ensures Valid() && (r.Overflow? ==> OutOfRoom(Tree()))
      ensures index + |buf| > |v.items| ==> r == Done(None) && Tree() == old(Tree())
      ensures old(PagesFit(Tree(), SharedIn(Tree(), inst.pages, index, index + |buf|))) ==> r.Done?
      ensures r.Done? ==> PagesPaid(old(Tree()), Tree(), old(SharedIn(Tree(), inst.pages, index, index + |buf|)))
      ensures r.Done? && index + |buf| <= |v.items| ==>
        && r.value.Some?
        && Updated(old(Tree()), Tree(), live, r.value.value,
          v.(items := v.items[..index] + buf + v.items[index + |buf|..]))
    {
      hide Sound, Size, PageOf, OffsetOf, From, To, Entry, DivCeil, Through, At, Start, WellFormed, SameReads, Wrote,
           RowWrote,
           LevelsOf, Separate, AllValid, StandsFor, OutOfRoom, PagesFit, PagesPaid, Shared, SharedIn;
      ghost var a := Tree();
      ghost var total := SharedIn(a, inst.pages, index, index + |buf|);
      ghost var used: nat := 0;
      NothingTaken(a, total);
      StandsForSize(a, inst, v);
      if index + |buf| > inst.size {
        return Done(None);
      }
      TopLevelSize();
      RowLive(live, inst);
      ghost var live' := live + multiset{inst.resetPage};
      RowStart(a, live', inst.pages, index);
      var itemsPerPage := ItemsPerTopLevelPage();
      var firstPage := PageOf(index, itemsPerPage);
      var lastPage := DivCeil(index + |buf|, itemsPerPage);
      var pageIndex := OffsetOf(index, itemsPerPage);
      CutAtStart(index, |buf|, itemsPerPage, |inst.pages|, firstPage, lastPage, pageIndex);
      var totalPages := lastPage - firstPage;
      var pages := inst.pages;
      var i := 0;
      ghost var done := 0;
      while i < totalPages
        invariant 0 <= i <= totalPages && 0 <= done <= |buf| && |pages| == |inst.pages|
        invariant i < totalPages ==> done == From(i, itemsPerPage, pageIndex)
        invariant i == totalPages ==> done == |buf|
        invariant Valid()
        invariant RowWrote(a, Tree(), live', inst.pages, pages, index, buf[..done])
        invariant PagesPaid(a, Tree(), used) && used <= total
        invariant i < totalPages ==> used + SharedIn(Tree(), pages, index + done, index + |buf|) <= total
      {
        ghost var b := Tree();
        TopLevelSize();
        CutAtEntry(Tree(), index, |buf|, i, firstPage, lastPage, pageIndex);
        var start := From(i, itemsPerPage, pageIndex);
        var end := To(i, itemsPerPage, pageIndex, |buf|);
        ghost var cost := RowCost(a, b, pages, firstPage + i, Entry(i, pageIndex), end - start, index + |buf|, used,
                                  total);
        pages :- WritePage(pages, firstPage + i, Entry(i, pageIndex), itemsPerPage, buf[start..end],
                           index, buf[..done], a, live', inst.pages, index + |buf|);
        PagesPaidTrans(a, b, Tree(), used, cost);
        used := used + cost;
        assert buf[..done] + buf[start..end] == buf[..end];
        done := end;
        i := i + 1;
      }
      assert buf[..done] == buf;
      RowUpdated(a, Tree(), live, inst, pages, v, index, buf);
      PagesPaidMore(a, Tree(), used, total);
      r := Done(Some(inst.(pages := pages)));
    }

    /** Writes `chunk` into one top-level page of the row. */
    method WritePage(pages: seq<Ptr>, e: nat, off: nat, itemsPerPage: nat, chunk: seq<T>, ghost index: nat,
                     ghost before: seq<T>,
                     ghost a: Levels<T>, ghost live: multiset<Ptr>, ghost pages0: seq<Ptr>,
                     ghost hi: nat) returns (r: Outcome<seq<Ptr>>)
      requires Valid() && RowWrote(a, Tree(), live, pages0, pages, index, before)
      requires itemsPerPage == ItemsPerTopLevelPage() && e < |pages| && off + |chunk| <= itemsPerPage
      requires Start(Tree(), e) + off == index + |before|
      modifies dataTable, pageTables
      ensures Valid() && (r.Overflow? ==> OutOfRoom(Tree()))
      ensures old(PagesFit(Tree(), Shared(Tree(), pages[e], off, off + |chunk|))) ==> r.Done?
      ensures r.Done? ==> |r.value| == |pages| && RowWrote(a, Tree(), live, pages0, r.value, index, before + chunk)
      ensures r.Done? ==>
        && PagesPaid(old(Tree()), Tree(), old(Shared(Tree(), pages[e], off, off + |chunk|)))
        && var at := old(Start(Tree(), e)) + itemsPerPage;
           SharedIn(Tree(), r.value, at, hi) <= old(SharedIn(Tree(), pages, at, hi))
    {
      hide Sound, Size, Through, At, Start, WellFormed, SameReads, Wrote, LevelsOf, Separate, AllValid, OutOfRoom,
           PagesFit,
           PagesPaid, Shared, SharedIn, Tame;
      ghost var b := Tree();
      TopLevelSize();
      PageIsLive(live, pages, e);
      var c :- WriteImpl(dataTable, pageTables, pages[e], off, itemsPerPage / PAGE_SIZE, chunk, live + multiset(pages));
      RowStep(b, Tree(), live, pages, e, c, off, chunk);
      RowCompose(a, b, Tree(), live, pages0, pages, pages[e := c], index, before, chunk);
      RowAfter(b, Tree(), live, pages, e, c, hi);
      r := Done(pages[e := c]);
    }

    /** Copies items into `buf`; fails, and leaves `buf` alone, when the range is out of bounds. */
    method Read(inst: Instance, buf: array<T>, index: nat, ghost live: multiset<Ptr>,
                ghost v: ArrayValue<T>) returns (ok: bool)
      requires Valid() && Sound(Tree(), live) && PtrsOf(inst) <= live && StandsFor(Tree(), inst, v)
      modifies buf
      ensures ok == (index + buf.Length <= |v.items|)
      ensures buf[..] == if ok then v.items[index..index + buf.Length] else old(buf[..])
    {
      hide Sound, Size, PageOf, OffsetOf, From, To, Entry, DivCeil, Through, At, Start, WellFormed, LevelsOf, Separate,
           AllValid, StandsFor;
      ghost var tree := Tree();
      StandsForSize(tree, inst, v);
      if index + buf.Length > inst.size {
        return false;
      }
      TopLevelSize();
      var len, itemsPerPage := buf.Length, ItemsPerTopLevelPage();
      var firstPage := PageOf(index, itemsPerPage);
      var lastPage := DivCeil(index + len, itemsPerPage);
      var pageIndex := OffsetOf(index, itemsPerPage);
      CutAtStart(index, len, itemsPerPage, |inst.pages|, firstPage, lastPage, pageIndex);
      var totalPages := lastPage - firstPage;
      var i := 0;
      ghost var done := 0;
      while i < totalPages
        invariant 0 <= i <= totalPages && 0 <= done <= len
        invariant i < totalPages ==> done == From(i, itemsPerPage, pageIndex)
        invariant i == totalPages ==> done == len
        invariant Valid() && Tree() == tree
        invariant forall k :: 0 <= k < done ==> buf[k] == v.items[index + k]
      {
        CutAtEntry(tree, index, len, i, firstPage, lastPage, pageIndex);
        var start := From(i, itemsPerPage, pageIndex);
        var end := To(i, itemsPerPage, pageIndex, len);
        PageInLive(live, inst, firstPage + i);
        ReadImpl(dataTable, pageTables, buf, start, end, inst.pages[firstPage + i], Entry(i, pageIndex),
                 itemsPerPage / PAGE_SIZE, live);
        PageHolds(buf, start, end, tree, inst, v, firstPage + i, Entry(i, pageIndex), index + start);
        done := end;
        i := i + 1;
      }
      ok := true;
    }
  }

  // ---------- Room ----------

  /** Number of pages that are no longer the one the array started out with. */
  function Changed(pages: seq<Ptr>, resetPage: Ptr): nat {
    if pages == [] then 0 else (if pages[0] == resetPage then 0 else 1) + Changed(pages[1..], resetPage)
  }

  lemma {:induction false} OneLess(pages: seq<Ptr>, k: nat, resetPage: Ptr)
    requires k < |pages| && pages[k] != resetPage
    ensures Changed(pages, resetPage) == Changed(pages[k := resetPage], resetPage) + 1
  {
    if k == 0 {
      assert pages[k := resetPage][1..] == pages[1..];
    } else {
      assert pages[k := resetPage][1..] == pages[1..][k - 1 := resetPage];
      OneLess(pages[1..], k - 1, resetPage);
    }
  }

  lemma OneMoreFits<T>(a: Levels<T>, b: Levels<T>, used: nat, total: nat)
    requires TreeGrew(a, b, 0, used) && used + 1 <= total
    ensures TreeFits(a, 0, total) ==> TreeFits(b, 0, 1)
  {
    if TreeFits(a, 0, total) {
      FitsFewer(a, 0, total, 0, used + 1);
      FitsAfter(a, b, 0, 1, 0, used);
    }
  }

  lemma FirstPageFits<T>(lv: Levels<T>, n: nat)
    ensures TreeFits(lv, 1, PAGE_SIZE + n) ==> PagesFit(lv, 1)
  {
    if TreeFits(lv, 1, PAGE_SIZE + n) {
      FitsFewer(lv, 1, PAGE_SIZE + n, 1, PAGE_SIZE);
    }
  }

  /** The pointers of a new array all point to one page. */
  lemma CopiesFit<T>(a: Levels<T>, b: Levels<T>, live: multiset<Ptr>, p: Ptr, n: nat)
    requires PagesGrew(a, b, 1) && Sound(b, live + multiset{p})
    ensures TreeFits(a, 1, PAGE_SIZE + n) ==> CloneFits(b, multiset(Copies(p, n)))
    ensures n >= LIMIT ==> !CloneFits(b, multiset(Copies(p, n)))
    ensures TreeGrew(a, Cloned(b, multiset(Copies(p, n))), 1, PAGE_SIZE + n)
  {
    hide Sound, Cloned, TreeGrew, TreeFits, Most;
    var ms := multiset(Copies(p, n));
    if TreeFits(a, 1, PAGE_SIZE + n) {
      FitsAfter(a, b, 0, n, 1, PAGE_SIZE);
      TreeFitsClone(b, 0, n, ms);
    }
    LiveIsInUse(b, live + multiset{p}, p);
    CopiesCount(p, n);
    ClonedGrew(b, ms);
    TreeGrewMore(b, Cloned(b, ms), 0, Most(ms), 0, n);
    TreeGrewTrans(a, b, Cloned(b, ms), 1, PAGE_SIZE, 0, n);
  }

  lemma {:induction false} CopiesCount(p: Ptr, n: nat)
    ensures multiset(Copies(p, n))[p] == n
  {
    if n > 0 {
      CopiesCount(p, n - 1);
      assert Copies(p, n) == Copies(p, n - 1) + [p];
    }
  }

  lemma LastFits<T>(lv: Levels<T>, ms: multiset<Ptr>, p: Ptr)
    requires TopInUse(lv, p) && CloneFits(lv, ms)
    ensures TopRefs(Cloned(lv, ms), p) < LIMIT <==> CloneFits(lv, ms + multiset{p})
    ensures TopInUse(Cloned(lv, ms), p) && CloneTop(Cloned(lv, ms), p) == Cloned(lv, ms + multiset{p})
  {
    CloneOneMore(lv, ms, p);
    if TopRefs(Cloned(lv, ms), p) >= LIMIT {
      CloneTooMany(lv, ms, p, ms + multiset{p});
    }
  }

  /** After a drop, one more reference. */
  lemma SharedAgain<T>(b: Levels<T>, c: Levels<T>, p: Ptr)
    requires TreeGrew(b, c, 0, 0)
    ensures TreeFits(b, 0, 1) ==> TopRefs(c, p) < LIMIT
    ensures TopInUse(c, p) ==> TreeGrew(b, CloneTop(c, p), 0, 1)
  {
    hide TreeGrew;
    if TreeFits(b, 0, 1) {
      FitsAfter(b, c, 0, 1, 0, 0);
    }
    if TopInUse(c, p) {
      CloneTopGrew(c, p);
      TreeGrewTrans(b, c, CloneTop(c, p), 0, 0, 0, 1);
    }
  }

  lemma CloneTopGrew<T>(lv: Levels<T>, p: Ptr)
    requires TopInUse(lv, p)
    ensures TreeGrew(lv, CloneTop(lv, p), 0, 1)
  {
    match lv
    case Leaf(data) => AddRefGrew(data, p);
    case Node(dir, below) =>
      AddRefGrew(dir, p);
      TreeGrewRefl(below, 0, 1);
  }

  lemma NothingTaken<T>(lv: Levels<T>, total: nat)
    ensures PagesPaid(lv, lv, 0) && PagesPaid(lv, lv, total)
  {
    PagesPaidRefl(lv);
    PagesPaidMore(lv, lv, 0, total);
  }

  /** What the next page of the row costs, given what is left for it and those after it. */
  lemma RowCost<T>(a: Levels<T>, b: Levels<T>, pages: seq<Ptr>, e: nat, off: nat, len: nat, hi: nat, used: nat,
                   total: nat)
    returns (cost: nat)
    requires e < |pages| && off < Size(b) && Start(b, e) < hi
    requires Start(b, e) + off + len == Min(hi, Start(b, e) + Size(b))
    requires PagesPaid(a, b, used) && used + SharedIn(b, pages, Start(b, e) + off, hi) <= total
    ensures cost == Shared(b, pages[e], off, off + len)
    ensures used + cost + SharedIn(b, pages, Start(b, e) + Size(b), hi) <= total
    ensures PagesFit(a, total) ==> PagesFit(b, cost)
  {
    hide Shared, SharedIn, PagesFit, PagesPaid, Start, Size;
    SharedCut(b, pages, e, Start(b, e) + off, hi);
    cost := Shared(b, pages[e], off, off + len);
    PagesPaidFit(a, b, used, cost, total);
  }

  lemma RowAfter<T>(a: Levels<T>, b: Levels<T>, live: multiset<Ptr>, pages: seq<Ptr>, e: nat, c: Ptr, hi: nat)
    requires Height(a) == Height(b) && e < |pages| && Tame(a, b, live + multiset(pages) - multiset{pages[e]})
    ensures SharedIn(b, pages[e := c], Start(a, e) + Size(a), hi) <= SharedIn(a, pages, Start(a, e) + Size(a), hi)
  {
    hide Shared, SharedIn;
    OtherPagesLive(live, pages, e, c);
    SharedAfter(a, b, pages, e, c, Start(a, e) + Size(a), hi);
  }

  function Repeat<T>(value: T, n: nat): (items: seq<T>)
    ensures |items| == n && forall i :: 0 <= i < n ==> items[i] == value
  {
    seq(n, i => value)
  }

  lemma FilledStandsFor<T>(lv: Levels<T>, p: Ptr, value: T, size: nat)
    requires Filled(lv, p, value)
    ensures StandsFor(lv, Instance(p, Copies(p, DivCeil(size, Size(lv))), size), ArrayValue(value, Repeat(value, size)))
  {
    hide At, Through, DivCeil, Size, Filled;
    var n := DivCeil(size, Size(lv));
    DivCeilLeast(size, Size(lv), n);
    StartIsProduct(lv, n);
    forall i: nat | i < size ensures Through(lv, Copies(p, n), i) == Some(value) {
      FilledThrough(lv, p, value, n, i);
    }
  }

  lemma ResetStandsFor<T>(a: Levels<T>, b: Levels<T>, live: multiset<Ptr>, inst: Instance, pages: seq<Ptr>,
                          v: ArrayValue<T>)
    requires StandsFor(a, inst, v) && Height(a) == Height(b)
    requires |pages| == |inst.pages| && forall j :: 0 <= j < |pages| ==> pages[j] == inst.resetPage
    requires
      && Sound(b, live + multiset{inst.resetPage} + multiset(pages)) && SameReads(a, b, live + multiset{inst.resetPage})
    ensures Updated(a, b, live, inst.(pages := pages), v.(items := Repeat(v.fill, |v.items|)))
  {
    hide Sound, At, Through, DivCeil, Size;
    SizeFromHeight(a, b);
    RowLive(live, inst.(pages := pages));
    forall i: nat | i < Size(b) ensures At(b, inst.resetPage, i) == Some(v.fill) {
      assert inst.resetPage in live + multiset{inst.resetPage};
      assert At(a, inst.resetPage, i) == Some(v.fill);
    }
    assert pages == Copies(inst.resetPage, |pages|);
    FilledStandsFor(b, inst.resetPage, v.fill, inst.size);
    SameReadsFewer(a, b, live + multiset{inst.resetPage}, live);
  }

  lemma InstanceInUse<T>(lv: Levels<T>, live: multiset<Ptr>, inst: Instance)
    requires Sound(lv, live) && PtrsOf(inst) <= live
    ensures (forall p :: p in inst.pages ==> TopInUse(lv, p)) && forall p :: p in [inst.resetPage] ==> TopInUse(lv, p)
  {
  }

  lemma SameReadsRefl<T>(a: Levels<T>, live: multiset<Ptr>)
    ensures SameReads(a, a, live)
  {
  }

  lemma SameReadsFewer<T>(a: Levels<T>, b: Levels<T>, live: multiset<Ptr>, fewer: multiset<Ptr>)
    requires SameReads(a, b, live) && fewer <= live
    ensures SameReads(a, b, fewer)
  {
  }

  lemma SameReadsTrans<T>(a: Levels<T>, b: Levels<T>, c: Levels<T>, live: multiset<Ptr>, more: multiset<Ptr>)
    requires SameReads(a, b, live) && SameReads(b, c, more) && live <= more
    ensures SameReads(a, c, live)
  {
  }

  lemma SameReadsUnchanged<T>(a: Levels<T>, b: Levels<T>, c: Levels<T>, live: multiset<Ptr>)
    requires SameReads(a, b, live) && Unchanged(b, c)
    ensures SameReads(a, c, live) && Height(c) == Height(b)
  {
  }

  lemma StandsForSize<T>(lv: Levels<T>, inst: Instance, v: ArrayValue<T>)
    requires StandsFor(lv, inst, v)
    ensures |v.items| == inst.size && inst.size <= |inst.pages| * Size(lv)
  {
  }

  /** What was read from one top-level page are items of the array. */
  lemma PageHolds<T>(buf: array<T>, lo: nat, hi: nat, lv: Levels<T>, inst: Instance, v: ArrayValue<T>, e: nat, off: nat,
                     at: nat)
    requires lo <= hi <= buf.Length && e < |inst.pages| && off + (hi - lo) <= Size(lv)
    requires Holds(buf, lo, hi, lv, inst.pages[e], off) && StandsFor(lv, inst, v)
    requires Start(lv, e) + off == at && at + (hi - lo) <= inst.size
    ensures forall k :: lo <= k < hi ==> buf[k] == v.items[at + (k - lo)]
  {
    hide At, Through, Size, Start, DivCeil;
    forall k | lo <= k < hi ensures buf[k] == v.items[at + (k - lo)] {
      ThroughEntry(lv, inst.pages, e, off + (k - lo));
    }
  }

  /** No table holds anything. */
  predicate EmptyTables<T>(lv: Levels<T>) {
    match lv
    case Leaf(data) => data == Slab([], 0)
    case Node(dir, below) => dir == Slab([], 0) && EmptyTables(below)
  }

  lemma {:induction false} EmptyTree<T>(slabs: seq<Slab<seq<Ptr>>>, data: Slab<seq<T>>)
    requires data == Slab([], 0) && forall i :: 0 <= i < |slabs| ==> slabs[i] == Slab([], 0)
    ensures Sound(Build(slabs, data), multiset{}) && EmptyTables(Build(slabs, data)) && Balance(Build(slabs, data)) == 0
  {
    if slabs == [] {
      assert IsFreeList(data, []);
    } else {
      assert IsFreeList(slabs[0], []);
      EmptyTree(slabs[1..], data);
    }
  }

  lemma PageInLive(live: multiset<Ptr>, inst: Instance, e: nat)
    requires PtrsOf(inst) <= live && e < |inst.pages|
    ensures inst.pages[e] in live
  {
  }

  lemma PagesInLive(live: multiset<Ptr>, inst: Instance)
    requires PtrsOf(inst) <= live
    ensures forall e :: 0 <= e < |inst.pages| ==> inst.pages[e] in live
  {
  }
}
