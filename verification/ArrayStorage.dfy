/** Storage of paged arrays: a data table of pages, and page tables whose pages hold pointers into
    the next table. Pages are copied on write. */
module ArrayStorages {
  import opened Options
  import opened Slabs
  import opened Tables
  import opened RadixTree
  import opened Rooms
  import opened Balances
  import opened Sharings
  import opened Chunks

  /** The tables are different objects. */
  ghost predicate Separate<T>(data: Table<seq<T>>, dirs: seq<Table<seq<Ptr>>>) {
    && (forall i :: 0 <= i < |dirs| ==> dirs[i] as object != data as object)
    && (forall i, j :: 0 <= i < j < |dirs| ==> dirs[i] != dirs[j])
  }

  ghost predicate AllValid<T>(data: Table<seq<T>>, dirs: seq<Table<seq<Ptr>>>)
    reads data, dirs
  {
    data.Valid() && forall i :: 0 <= i < |dirs| ==> dirs[i].Valid()
  }

  /** The tree stored by a data table and the page tables above it, top level first. */
  ghost function LevelsOf<T>(data: Table<seq<T>>, dirs: seq<Table<seq<Ptr>>>): (lv: Levels<T>)
    reads data, dirs
    requires AllValid(data, dirs)
    ensures Height(lv) == |dirs|
  {
    if dirs == [] then Leaf(data.Value()) else Node(dirs[0].Value(), LevelsOf(data, dirs[1..]))
  }

  /** Positions below one entry of the top-level page. */
  ghost function Span<T>(lv: Levels<T>): nat {
    match lv
    case Leaf(_) => 1
    case Node(_, below) => Size(below)
  }

  /** Clones a pointer into the topmost table, adding a reference to the page. */
  method CloneTopPtr<T>(data: Table<seq<T>>, dirs: seq<Table<seq<Ptr>>>, p: Ptr,
                        ghost live: multiset<Ptr>) returns (q: Outcome<Ptr>)
    requires Separate(data, dirs) && AllValid(data, dirs)
    requires Sound(LevelsOf(data, dirs), live) && TopInUse(LevelsOf(data, dirs), p)
    modifies data, dirs
    ensures AllValid(data, dirs) && (q.Overflow? ==> OutOfRoom(LevelsOf(data, dirs)))
    ensures q.Done? <==> TopRefs(old(LevelsOf(data, dirs)), p) < LIMIT
    ensures q.Done? ==>
      && q.value == p && LevelsOf(data, dirs) == CloneTop(old(LevelsOf(data, dirs)), p)
      && Sound(LevelsOf(data, dirs), live + multiset{p})
  {
    hide Sound, WellFormed, At;
    CloneTopKeeps(LevelsOf(data, dirs), live, p);
    if dirs == [] {
      q := data.CloneTablePtr(p);
    } else {
      q := dirs[0].CloneTablePtr(p);
      assert LevelsOf(data, dirs[1..]) == old(LevelsOf(data, dirs[1..]));
    }
  }

  /** Clones each of `ptrs`, one after the other; done exactly when all these references fit. */
  method CloneAll<T>(data: Table<seq<T>>, dirs: seq<Table<seq<Ptr>>>, ptrs: seq<Ptr>,
                     ghost live: multiset<Ptr>) returns (done: Outcome<()>)
    requires Separate(data, dirs) && AllValid(data, dirs)
    requires Sound(LevelsOf(data, dirs), live)
    requires forall p :: p in ptrs ==> TopInUse(LevelsOf(data, dirs), p)
    modifies data, dirs
    ensures AllValid(data, dirs) && (done.Overflow? ==> OutOfRoom(LevelsOf(data, dirs)))
    ensures done.Done? <==> CloneFits(old(LevelsOf(data, dirs)), multiset(ptrs))
    ensures done.Done? ==>
      && LevelsOf(data, dirs) == Cloned(old(LevelsOf(data, dirs)), multiset(ptrs))
      && Unchanged(old(LevelsOf(data, dirs)), LevelsOf(data, dirs))
      && Sound(LevelsOf(data, dirs), live + multiset(ptrs))
  {
    hide Sound, WellFormed, At, Unchanged, TopInUse, CloneTop, OutOfRoom, AllValid, LevelsOf, Separate, Cloned,
         CloneFits,
         TopRefs;
    ghost var before := LevelsOf(data, dirs);
    UnchangedRefl(before);
    ClonedNone(before);
    assert live + multiset(ptrs[..0]) == live;
    var k := 0;
    while k < |ptrs|
      invariant 0 <= k <= |ptrs|
      invariant AllValid(data, dirs)
      invariant Unchanged(before, LevelsOf(data, dirs))
      invariant LevelsOf(data, dirs) == Cloned(before, multiset(ptrs[..k])) && CloneFits(before, multiset(ptrs[..k]))
      invariant Sound(LevelsOf(data, dirs), live + multiset(ptrs[..k]))
    {
      ghost var lv := LevelsOf(data, dirs);
      ghost var live' := live + multiset(ptrs[..k]);
      NextPtr(ptrs, k);
      CloneOneMore(before, multiset(ptrs[..k]), ptrs[k]);
      CloneTopKeeps(lv, live', ptrs[k]);
      var next := CloneTopPtr(data, dirs, ptrs[k], live');
      if next.Overflow? {
        CloneTooMany(before, multiset(ptrs[..k]), ptrs[k], multiset(ptrs));
        return Overflow;
      }
      UnchangedTrans(before, lv, LevelsOf(data, dirs));
      assert live + multiset(ptrs[..k + 1]) == live' + multiset{ptrs[k]};
      k := k + 1;
    }
    assert ptrs[..k] == ptrs;
    done := Done(());
  }

  lemma NextPtr(ptrs: seq<Ptr>, k: nat)
    requires k < |ptrs|
    ensures multiset(ptrs[..k + 1]) == multiset(ptrs[..k]) + multiset{ptrs[k]} <= multiset(ptrs)
  {
    assert ptrs[..k + 1] == ptrs[..k] + [ptrs[k]];
    assert ptrs == ptrs[..k + 1] + ptrs[k + 1..];
  }

  lemma UnchangedInUse<T>(a: Levels<T>, b: Levels<T>, ptrs: seq<Ptr>)
    requires Unchanged(a, b) && forall p :: p in ptrs ==> TopInUse(a, p)
    ensures forall p :: p in ptrs ==> TopInUse(b, p)
  {
  }

  /** A page table on top of the tables `next` and `data`. */
  ghost predicate OnTop<T>(dir: Table<seq<Ptr>>, data: Table<seq<T>>, next: seq<Table<seq<Ptr>>>)
    reads dir, data, next
  {
    dir !in next && dir as object != data as object && dir.Valid() && Separate(data, next) && AllValid(data, next)
  }

  ghost function TreeOf<T>(dir: Table<seq<Ptr>>, data: Table<seq<T>>, next: seq<Table<seq<Ptr>>>): Levels<T>
    reads dir, data, next
    requires OnTop(dir, data, next)
  {
    Node(dir.Value(), LevelsOf(data, next))
  }

  /** Duplicates a shared page-table page: every entry gains a reference in the next table. */
  method CloneArrayItem<T>(dir: Table<seq<Ptr>>, data: Table<seq<T>>, next: seq<Table<seq<Ptr>>>, p: Ptr,
                           ghost live: multiset<Ptr>, ghost index: nat) returns (q: Outcome<Ptr>)
    requires OnTop(dir, data, next)
    requires Sound(TreeOf(dir, data, next), live) && p in live && dir.Value().cells[p].refs > 1
    modifies dir, data, next
    ensures OnTop(dir, data, next) && (q.Overflow? ==> OutOfRoom(TreeOf(dir, data, next)))
    ensures old(PagesFit(TreeOf(dir, data, next), 1)) ==> q.Done?
    ensures q.Done? ==>
      && Wrote(old(TreeOf(dir, data, next)), TreeOf(dir, data, next), live, p, q.value, index, [])
      && Paid(old(TreeOf(dir, data, next)), TreeOf(dir, data, next), live, p, 1)
      && Opened(old(TreeOf(dir, data, next)), TreeOf(dir, data, next), p, q.value)
  {
    hide Sound, WellFormed, At, Wrote, Shadow, Unchanged, Covers, PagesFull, TopInUse, Entries, LevelsOf, AllValid,
         Separate, Height, PagesFit, Paid, Opened, Cloned, CloneFits;
    ghost var top, below := dir.Value(), LevelsOf(data, next);
    NodeParts(top, below, live, p);
    var page := dir.GetItem(p);
    ShadowNodeFits(top, below, page);
    var _ :- CloneAll(data, next, page, Entries(top.cells));
    ghost var below' := LevelsOf(data, next);
    UnchangedReads(below, below');
    ShadowNode(top, below, below', live, p, index);
    ShadowNodePaid(top, below, live, p);
    q := dir.CloneItem(p);
    assert LevelsOf(data, next) == below';
  }

  lemma NodeParts<T>(dir: Slab<seq<Ptr>>, below: Levels<T>, live: multiset<Ptr>, p: Ptr)
    requires Sound(Node(dir, below), live) && p in live
    ensures
      && InUse(dir, p) && dir.cells[p].refs >= 1 && |dir.cells[p].item| == PAGE_SIZE
      && (forall c :: c in dir.cells[p].item ==> TopInUse(below, c))
    ensures WellFormed(dir) && Sound(below, Entries(dir.cells))
  {
    PageInUse(dir, below, live, p);
  }

  // ---------- Writing ----------

  /** Makes the caller the sole owner of the data page it points to. */
  method OwnDataPage<T>(data: Table<seq<T>>, p: Ptr, ghost live: multiset<Ptr>,
                        ghost index: nat) returns (q: Outcome<Ptr>)
    requires data.Valid() && Sound(Leaf(data.Value()), live) && p in live
    modifies data
    ensures data.Valid() && (q.Overflow? ==> OutOfRoom(Leaf(data.Value())))
    ensures old(PagesFit(Leaf(data.Value()), PageCost(Leaf(data.Value()), p))) ==> q.Done?
    ensures q.Done? ==>
      && InUse(data.Value(), q.value) && data.Value().cells[q.value].refs == 1
      && Wrote(old(Leaf(data.Value())), Leaf(data.Value()), live, p, q.value, index, [])
      && Paid(old(Leaf(data.Value())), Leaf(data.Value()), live, p, old(PageCost(Leaf(data.Value()), p)))
  {
    hide Sound, Wrote, Shadow, WellFormed, PagesFit, Paid;
    ghost var pages := data.Value();
    LeafParts(pages, live, p);
    var unique := data.IsUniqueTablePtr(p);
    if unique {
      q := Done(p);
      AlreadyOwned(Leaf(pages), live, p, index);
      PaidRefl(Leaf(pages), live, p);
    } else {
      ShadowLeaf(pages, live, p, index);
      ShadowLeafPaid(pages, live, p);
      q := data.CloneItem(p);
      if q.Done? {
        WroteTop(Leaf(pages), Leaf(data.Value()), live, p, q.value, index, []);
      }
    }
  }

  lemma LeafParts<T>(data: Slab<seq<T>>, live: multiset<Ptr>, p: Ptr)
    requires Sound(Leaf(data), live) && p in live
    ensures WellFormed(data) && InUse(data, p) && data.cells[p].refs >= 1 && |data.cells[p].item| == PAGE_SIZE
  {
  }

  lemma WroteTop<T>(a: Levels<T>, b: Levels<T>, live: multiset<Ptr>, p: Ptr, q: Ptr, index: nat, buf: seq<T>)
    requires Wrote(a, b, live, p, q, index, buf)
    ensures Sound(b, live - multiset{p} + multiset{q}) && q in live - multiset{p} + multiset{q}
    ensures TopRefs(b, q) == 1 && Height(a) == Height(b) && Size(a) == Size(b)
  {
    SizeFromHeight(a, b);
  }

  /** Makes the caller the sole owner of the page-table page it points to. */
  method OwnDirPage<T>(dir: Table<seq<Ptr>>, data: Table<seq<T>>, next: seq<Table<seq<Ptr>>>, p: Ptr,
                       ghost live: multiset<Ptr>, ghost index: nat) returns (q: Outcome<Ptr>)
    requires OnTop(dir, data, next)
    requires Sound(TreeOf(dir, data, next), live) && p in live
    modifies dir, data, next
    ensures OnTop(dir, data, next) && (q.Overflow? ==> OutOfRoom(TreeOf(dir, data, next)))
    ensures old(PagesFit(TreeOf(dir, data, next), PageCost(TreeOf(dir, data, next), p))) ==> q.Done?
    ensures q.Done? ==>
      && InUse(dir.Value(), q.value) && dir.Value().cells[q.value].refs == 1
      && Wrote(old(TreeOf(dir, data, next)), TreeOf(dir, data, next), live, p, q.value, index, [])
      && Paid(old(TreeOf(dir, data, next)), TreeOf(dir, data, next), live, p, old(PageCost(TreeOf(dir, data, next), p)))
      && Opened(old(TreeOf(dir, data, next)), TreeOf(dir, data, next), p, q.value)
  {
    hide Sound, Wrote, WellFormed, LevelsOf, AllValid, Separate, PagesFit, Paid, Opened;
    ghost var tree := TreeOf(dir, data, next);
    NodeParts(dir.Value(), LevelsOf(data, next), live, p);
    var unique := dir.IsUniqueTablePtr(p);
    if unique {
      q := Done(p);
      AlreadyOwned(tree, live, p, index);
      PaidRefl(tree, live, p);
      OwnedOpened(tree, p);
    } else {
      q := CloneArrayItem(dir, data, next, p, live, index);
      if q.Done? {
        WroteTop(tree, TreeOf(dir, data, next), live, p, q.value, index, []);
      }
    }
  }

  /** Writes `buf` into the tree named by `p`, one page after the other, duplicating shared pages. */
  method WriteImpl<T>(data: Table<seq<T>>, dirs: seq<Table<seq<Ptr>>>, p: Ptr, index: nat, divisor: nat, buf: seq<T>,
                      ghost live: multiset<Ptr>) returns (q: Outcome<Ptr>)
    requires Separate(data, dirs) && AllValid(data, dirs)
    requires Sound(LevelsOf(data, dirs), live) && p in live
    requires divisor == Span(LevelsOf(data, dirs)) && index + |buf| <= Size(LevelsOf(data, dirs))
    modifies data, dirs
    ensures AllValid(data, dirs) && (q.Overflow? ==> OutOfRoom(LevelsOf(data, dirs)))
    ensures old(PagesFit(LevelsOf(data, dirs), Shared(LevelsOf(data, dirs), p, index, index + |buf|))) ==> q.Done?
    ensures q.Done? ==>
      && Wrote(old(LevelsOf(data, dirs)), LevelsOf(data, dirs), live, p, q.value, index, buf)
      && Paid(old(LevelsOf(data, dirs)), LevelsOf(data, dirs), live, p,
        old(Shared(LevelsOf(data, dirs), p, index, index + |buf|)))
    decreases |dirs|, 1
  {
    hide Sound, Wrote, Height, Size, Shared, Paid, PagesFit;
    SpanOfChild(LevelsOf(data, dirs));
    if dirs == [] {
      q := WriteData(data, p, index, buf, live);
    } else {
      assert dirs[1..] == dirs[1..|dirs|];
      q := WriteDir(dirs[0], data, dirs[1..], p, index, divisor, buf, live);
      assert dirs == [dirs[0]] + dirs[1..];
    }
  }

  method WriteData<T>(data: Table<seq<T>>, p: Ptr, index: nat, buf: seq<T>,
                      ghost live: multiset<Ptr>) returns (q: Outcome<Ptr>)
    requires data.Valid() && Sound(Leaf(data.Value()), live) && p in live
    requires index + |buf| <= PAGE_SIZE
    modifies data
    ensures data.Valid() && (q.Overflow? ==> OutOfRoom(Leaf(data.Value())))
    ensures old(PagesFit(Leaf(data.Value()), Shared(Leaf(data.Value()), p, index, index + |buf|))) ==> q.Done?
    ensures q.Done? ==>
      && Wrote(old(Leaf(data.Value())), Leaf(data.Value()), live, p, q.value, index, buf)
      && Paid(old(Leaf(data.Value())), Leaf(data.Value()), live, p,
        old(Shared(Leaf(data.Value()), p, index, index + |buf|)))
  {
    hide Sound, Wrote, WellFormed, Paid, PagesFit;
    ghost var a := Leaf(data.Value());
    var own :- OwnDataPage(data, p, live, index);
    ghost var b := Leaf(data.Value());
    ghost var live' := live - multiset{p} + multiset{own};
    WroteTop(a, b, live, p, own, index, []);
    LeafParts(data.Value(), live', own);
    var page := data.GetItem(own);
    WriteLeaf(data.Value(), live', own, index, buf);
    WriteLeafPaid(data.Value(), live', own, page[..index] + buf + page[index + |buf|..]);
    data.SetItem(own, page[..index] + buf + page[index + |buf|..]);
    PaidTrans(a, b, Leaf(data.Value()), live, p, own, PageCost(a, p), 0);
    Compose(a, b, Leaf(data.Value()), live, p, own, own, index, [], buf);
    assert [] + buf == buf;
    q := Done(own);
  }

  method WriteDir<T>(dir: Table<seq<Ptr>>, data: Table<seq<T>>, next: seq<Table<seq<Ptr>>>, p: Ptr, index: nat,
                     divisor: nat, buf: seq<T>, ghost live: multiset<Ptr>) returns (q: Outcome<Ptr>)
    requires OnTop(dir, data, next)
    requires Sound(TreeOf(dir, data, next), live) && p in live
    requires divisor == Size(LevelsOf(data, next)) && index + |buf| <= PAGE_SIZE * divisor
    modifies dir, data, next
    ensures OnTop(dir, data, next) && (q.Overflow? ==> OutOfRoom(TreeOf(dir, data, next)))
    ensures old(PagesFit(TreeOf(dir, data, next), Shared(TreeOf(dir, data, next), p, index, index + |buf|))) ==> q.Done?
    ensures q.Done? ==>
      && Wrote(old(TreeOf(dir, data, next)), TreeOf(dir, data, next), live, p, q.value, index, buf)
      && Paid(old(TreeOf(dir, data, next)), TreeOf(dir, data, next), live, p,
              old(Shared(TreeOf(dir, data, next), p, index, index + |buf|)))
    decreases |next|, 3
  {
    hide Sound, Wrote, WellFormed, LevelsOf, AllValid, Separate, Start, Height, Size, From, To, Entry, PageOf, OffsetOf,
         DivCeil, OutOfRoom, Shared, SharedIn, PagesPaid, Tame, PagesFit, Opened, PageCost, RestKept, Left;
    ghost var tree := TreeOf(dir, data, next);
    ghost var total := Shared(tree, p, index, index + |buf|);
    var firstPage := PageOf(index, divisor);
    var lastPage := DivCeil(index + |buf|, divisor);
    var pageIndex := OffsetOf(index, divisor);
    CutAtStart(index, |buf|, divisor, PAGE_SIZE, firstPage, lastPage, pageIndex);
    var amountOfPages := lastPage - firstPage;
    CostWithin(tree, live, p, index, index + |buf|);
    PagesPaidFit(tree, tree, 0, PageCost(tree, p), total);
    var own :- OwnDirPage(dir, data, next, p, live, index);
    SameBelow(tree, TreeOf(dir, data, next), live, p, own, index, []);
    OpenedLeft(tree, TreeOf(dir, data, next), p, own, index, index + |buf|);
    ghost var used: nat := PageCost(tree, p);
    ghost var live' := live - multiset{p} + multiset{own};
    var i := 0;
    ghost var done := 0;
    while i < amountOfPages
      invariant 0 <= i <= amountOfPages && 0 <= done <= |buf|
      invariant i < amountOfPages ==> done == From(i, divisor, pageIndex)
      invariant i == amountOfPages ==> done == |buf|
      invariant OnTop(dir, data, next) && divisor == Size(LevelsOf(data, next))
      invariant Wrote(tree, TreeOf(dir, data, next), live, p, own, index, buf[..done])
      invariant Paid(tree, TreeOf(dir, data, next), live, p, used) && used <= total
      invariant i < amountOfPages ==> Left(TreeOf(dir, data, next), own, index + done, index + |buf|, total - used)
    {
      CutAtEntry(LevelsOf(data, next), index, |buf|, i, firstPage, lastPage, pageIndex);
      var start := From(i, divisor, pageIndex);
      var end := To(i, divisor, pageIndex, |buf|);
      var entry := Entry(i, pageIndex);
      var chunk := buf[start..end];
      ghost var treeI := TreeOf(dir, data, next);
      WroteTop(tree, treeI, live, p, own, index, buf[..done]);
      ghost var cost := ChildCost(tree, treeI, live', p, own, firstPage + i, entry, |chunk|, index + |buf|, used,
                                  total);
      var _ :- WriteChild(dir, data, next, own, firstPage + i, entry, divisor, chunk, live');
      ChildWritten(tree, treeI, TreeOf(dir, data, next), live, p, own, index, buf, start, end, used, cost, total,
                   Start(treeI.below, firstPage + i) + divisor);
      used := used + cost;
      done := end;
      i := i + 1;
    }
    assert buf[..done] == buf;
    PaidMore(tree, TreeOf(dir, data, next), live, p, used, total);
    q := Done(own);
  }

  lemma CostWithin<T>(lv: Levels<T>, live: multiset<Ptr>, p: Ptr, lo: nat, hi: nat)
    ensures PageCost(lv, p) <= Shared(lv, p, lo, hi)
    ensures PagesPaid(lv, lv, 0)
  {
    PagesPaidRefl(lv);
  }

  lemma OpenedLeft<T>(a: Levels<T>, b: Levels<T>, p: Ptr, q: Ptr, lo: nat, hi: nat)
    requires Opened(a, b, p, q)
    ensures Left(b, q, lo, hi, Shared(a, p, lo, hi) - PageCost(a, p))
  {
  }

  /** A write from `lo` to `hi` below the owned page at `q` still has at most `left` pages to duplicate. */
  ghost predicate Left<T>(lv: Levels<T>, q: Ptr, lo: nat, hi: nat, left: int) {
    lv.Node? && InUse(lv.dir, q) && SharedIn(lv.below, lv.dir.cells[q].item, lo, hi) <= left
  }

  /** What the next child costs, given what is left for it and those after it. */
  lemma ChildCost<T>(tree: Levels<T>, now: Levels<T>, live: multiset<Ptr>, p: Ptr, q: Ptr, e: nat, off: nat, len: nat,
                     hi: nat,
                     used: nat, total: nat) returns (cost: nat)
    requires now.Node? && Sound(now, live) && q in live && e < PAGE_SIZE
    requires off + len <= Size(now.below) && off < Size(now.below) && Start(now.below, e) < hi
    requires Start(now.below, e) + off + len == Min(hi, Start(now.below, e) + Size(now.below))
    requires PagesPaid(tree, now, used) && Left(now, q, Start(now.below, e) + off, hi, total - used)
    ensures InUse(now.dir, q) && |now.dir.cells[q].item| == PAGE_SIZE
    ensures cost == Shared(now.below, now.dir.cells[q].item[e], off, off + len)
    ensures Left(now, q, Start(now.below, e) + Size(now.below), hi, total - used - cost)
    ensures PagesFit(tree, total) ==> PagesFit(now, cost)
  {
    hide Sound, Shared, SharedIn, PagesFit, PagesPaid, Start, Size;
    NodeParts(now.dir, now.below, live, q);
    var page, at := now.dir.cells[q].item, Start(now.below, e);
    SharedCut(now.below, page, e, at + off, hi);
    cost := Shared(now.below, page[e], off, off + len);
    PagesPaidFit(tree, now, used, cost, total);
  }

  lemma ChildWritten<T>(tree: Levels<T>, a: Levels<T>, b: Levels<T>, live: multiset<Ptr>, p: Ptr, q: Ptr, index: nat,
                        buf: seq<T>,
                        start: nat, end: nat, used: nat, cost: nat, total: nat, at: nat)
    requires p in live && start <= end <= |buf| && a.Node? && b.Node?
    requires Wrote(tree, a, live, p, q, index, buf[..start])
    requires Wrote(a, b, live - multiset{p} + multiset{q}, q, q, index + start, buf[start..end])
    requires Paid(tree, a, live, p, used) && Paid(a, b, live - multiset{p} + multiset{q}, q, cost)
    requires RestKept(a, b, q, at) && Left(a, q, at, index + |buf|, total - used - cost)
    ensures Wrote(tree, b, live, p, q, index, buf[..end]) && Size(b.below) == Size(a.below)
    ensures Paid(tree, b, live, p, used + cost) && used + cost <= total
    ensures Left(b, q, at, index + |buf|, total - used - cost)
  {
    hide Wrote, Paid, SharedIn, Size, Sound;
    Compose(tree, a, b, live, p, q, q, index, buf[..start], buf[start..end]);
    SameBelow(a, b, live - multiset{p} + multiset{q}, q, q, index + start, buf[start..end]);
    PaidTrans(tree, a, b, live, p, q, used, cost);
    assert buf[..start] + buf[start..end] == buf[..end];
  }

  lemma CutAtStart(index: nat, len: nat, d: nat, n: nat, first: nat, last: nat, pageIndex: int)
    requires d > 0 && first == PageOf(index, d) && last == DivCeil(index + len, d) && pageIndex == OffsetOf(index, d)
    ensures 0 <= pageIndex < d && first <= last
    ensures first == last ==> len == 0
    ensures From(0, d, pageIndex) == 0
    ensures len == 0 ==> last <= first + 1
    ensures index + len <= n * d ==> last <= n
  {
    Cut(index, len, d, 0);
    if index + len <= n * d {
      CutInside(index, len, d, n);
    }
  }

  lemma CutAtEntry<T>(below: Levels<T>, index: nat, len: nat, i: nat, first: nat, last: nat, pageIndex: nat)
    requires var d := Size(below);
      first == PageOf(index, d) && last == DivCeil(index + len, d) && pageIndex == OffsetOf(index, d)
    requires i < last - first
    ensures var d := Size(below);
      && From(i, d, pageIndex) <= To(i, d, pageIndex, len) <= len
      && (From(i, d, pageIndex) == To(i, d, pageIndex, len) ==> len == 0)
      && Entry(i, pageIndex) + (To(i, d, pageIndex, len) - From(i, d, pageIndex)) <= d
      && Start(below, first + i) + Entry(i, pageIndex) == index + From(i, d, pageIndex)
      && To(i, d, pageIndex, len) == (if i + 1 == last - first then len else From(i + 1, d, pageIndex))
      && Entry(i, pageIndex) < d && Start(below, first + i) < index + len
      && index + To(i, d, pageIndex, len) == Min(index + len, Start(below, first + i) + d)
      && (i + 1 < last - first ==> Start(below, first + i) + d == index + To(i, d, pageIndex, len))
  {
    hide Size, Start, DivCeil, From, To, Entry, Min;
    var d := Size(below);
    Cut(index, len, d, i);
    CutEnd(index, len, d, i);
    CutWithin(index, len, d, first + i);
    StartIsProduct(below, first + i);
  }

  lemma SameBelow<T>(a: Levels<T>, b: Levels<T>, live: multiset<Ptr>, p: Ptr, q: Ptr, index: nat, buf: seq<T>)
    requires a.Node? && b.Node? && Wrote(a, b, live, p, q, index, buf)
    ensures Size(b.below) == Size(a.below)
  {
    SizeFromHeight(a.below, b.below);
  }

  lemma SpanIsPower<T>(lv: Levels<T>)
    ensures Span(lv) == Power64(Height(lv)) && Size(lv) == Power64(Height(lv) + 1)
  {
    SizeIsPower(lv);
    if lv.Node? {
      SizeIsPower(lv.below);
    }
  }

  lemma SpanOfChild<T>(lv: Levels<T>)
    ensures Span(lv) == Size(lv) / PAGE_SIZE && Size(lv) == PAGE_SIZE * Span(lv)
  {
  }

  /** Writes `chunk` into the tree below one entry of an owned page. */
  method WriteChild<T>(dir: Table<seq<Ptr>>, data: Table<seq<T>>, next: seq<Table<seq<Ptr>>>, q: Ptr, e: nat, off: nat,
                       divisor: nat, chunk: seq<T>, ghost live: multiset<Ptr>) returns (done: Outcome<()>)
    requires OnTop(dir, data, next)
    requires Sound(TreeOf(dir, data, next), live) && q in live && TopRefs(TreeOf(dir, data, next), q) == 1
    requires e < PAGE_SIZE && divisor == Size(LevelsOf(data, next)) && off + |chunk| <= divisor
    modifies dir, data, next
    ensures OnTop(dir, data, next) && (done.Overflow? ==> OutOfRoom(TreeOf(dir, data, next)))
    ensures old(InUse(dir.Value(), q) && |dir.Value().cells[q].item| == PAGE_SIZE)
    ensures old(PagesFit(TreeOf(dir, data, next),
      Shared(LevelsOf(data, next), dir.Value().cells[q].item[e], off, off + |chunk|)))
      ==> done.Done?
    ensures done.Done? ==>
      && Wrote(old(TreeOf(dir, data, next)), TreeOf(dir, data, next), live, q, q,
        old(Start(LevelsOf(data, next), e)) + off, chunk)
      && Paid(old(TreeOf(dir, data, next)), TreeOf(dir, data, next), live, q,
              old(Shared(LevelsOf(data, next), dir.Value().cells[q].item[e], off, off + |chunk|)))
      && RestKept(old(TreeOf(dir, data, next)), TreeOf(dir, data, next), q,
        old(Start(LevelsOf(data, next), e)) + divisor)
    decreases |next|, 2
  {
    hide Sound, Wrote, WellFormed, LevelsOf, AllValid, Separate, Start, Height, Size, Shared, Paid, PagesFit, RestKept;
    ghost var top, below := dir.Value(), LevelsOf(data, next);
    NodeParts(top, below, live, q);
    var page := dir.GetItem(q);
    SpanOfChild(below);
    EntryIsLive(top, q, e);
    PagesFitBelow(top, below, Shared(below, page[e], off, off + |chunk|));
    var c :- WriteImpl(data, next, page[e], off, divisor / PAGE_SIZE, chunk, Entries(top.cells));
    ghost var below' := LevelsOf(data, next);
    WriteEntry(top, below, below', live, q, e, c, off, chunk);
    ChildPaid(top, below, below', live, q, e, c, off, chunk);
    dir.SetItem(q, page[e := c]);
    assert LevelsOf(data, next) == below';
    done := Done(());
  }

  lemma ChildPaid<T>(top: Slab<seq<Ptr>>, below: Levels<T>, below': Levels<T>, live: multiset<Ptr>, q: Ptr, e: nat,
                     c: Ptr,
                     off: nat, chunk: seq<T>)
    requires Sound(Node(top, below), live) && q in live && top.cells[q].refs == 1 && e < |top.cells[q].item|
    requires Wrote(below, below', Entries(top.cells), top.cells[q].item[e], c, off, chunk)
    requires Paid(below, below', Entries(top.cells), top.cells[q].item[e],
      Shared(below, top.cells[q].item[e], off, off + |chunk|))
    ensures var b := Node(SetItem(top, q, top.cells[q].item[e := c]), below');
      && Paid(Node(top, below), b, live, q, Shared(below, top.cells[q].item[e], off, off + |chunk|))
      && RestKept(Node(top, below), b, q, Start(below, e) + Size(below))
  {
    hide Sound, Shared, PagesPaid, Tame, Entries, Start, Size;
    NodeIsSound(top, below, live);
    WriteEntryPaid(top, below, below', live, q, e, c, Shared(below, top.cells[q].item[e], off, off + |chunk|));
    WriteEntryKeepsRest(top, below, below', q, e, c);
  }
}
