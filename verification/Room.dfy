/** How much still fits the 31-bit fields of the slabs, and how much of that an operation takes. */
module Rooms {
  import opened Options
  import opened Slabs
  import opened RadixTree

  // ---------- One slab ----------

  function Weight<T>(c: Cell<T>): nat {
    if c.Used? then 1 else 0
  }

  /** Number of filled cells. */
  function ItemCount<T>(cells: seq<Cell<T>>): nat {
    if cells == [] then 0 else ItemCount(cells[..|cells| - 1]) + Weight(cells[|cells| - 1])
  }

  /** `slots` more items fit into the slab, and `refs` more references to any item. */
  ghost predicate SlabFits<T>(s: Slab<T>, slots: nat, refs: nat) {
    && ItemCount(s.cells) + slots <= LIMIT && refs < LIMIT
    && forall p: Ptr :: InUse(s, p) ==> s.cells[p].refs + refs <= LIMIT
  }

  /** From `s` to `t` at most `slots` items came in, and no item gained more than `refs` references. */
  ghost predicate SlabGrew<T>(s: Slab<T>, t: Slab<T>, slots: nat, refs: nat) {
    && ItemCount(t.cells) <= ItemCount(s.cells) + slots
    && forall p: Ptr :: InUse(t, p) ==>
         t.cells[p].refs <= 1 + refs || (InUse(s, p) && t.cells[p].refs <= s.cells[p].refs + refs)
  }

  lemma {:induction false} CountUpdate<T>(cells: seq<Cell<T>>, i: nat, c: Cell<T>)
    requires i < |cells|
    ensures ItemCount(cells[i := c]) + Weight(cells[i]) == ItemCount(cells) + Weight(c)
  {
    var n := |cells| - 1;
    if i < n {
      assert cells[i := c][..n] == cells[..n][i := c];
      CountUpdate(cells[..n], i, c);
    } else {
      assert cells[i := c][..n] == cells[..n];
    }
  }

  lemma CountAppend<T>(cells: seq<Cell<T>>, c: Cell<T>)
    ensures ItemCount(cells + [c]) == ItemCount(cells) + Weight(c)
  {
    assert (cells + [c])[..|cells|] == cells;
  }

  /** With no more cells filled than before, no more are counted. */
  lemma {:induction false} CountFewer<T>(a: seq<Cell<T>>, b: seq<Cell<T>>)
    requires |a| == |b| && forall p :: 0 <= p < |b| && b[p].Used? ==> a[p].Used?
    ensures ItemCount(b) <= ItemCount(a)
  {
    if a != [] {
      CountFewer(a[..|a| - 1], b[..|b| - 1]);
    }
  }

  lemma {:induction false} CountAll<T>(cells: seq<Cell<T>>)
    requires forall p :: 0 <= p < |cells| ==> cells[p].Used?
    ensures ItemCount(cells) == |cells|
  {
    if cells != [] {
      CountAll(cells[..|cells| - 1]);
    }
  }

  /** A slab that is not full of items takes another one, for it has an empty slot or may grow. */
  lemma FitsHasSlot<T>(s: Slab<T>, slots: nat, refs: nat)
    requires WellFormed(s) && SlabFits(s, slots, refs) && slots > 0
    ensures HasSlot(s)
  {
    NextEmptyIsFree(s);
    if s.nextEmpty == |s.cells| {
      CountAll(s.cells);
    }
  }

  lemma AddItemGrew<T>(s: Slab<T>, item: T)
    requires WellFormed(s)
    ensures s.nextEmpty <= |s.cells|
    ensures s.nextEmpty < |s.cells| ==> s.cells[s.nextEmpty].Empty?
    ensures SlabGrew(s, AddItem(s, item).0, 1, 0)
  {
    NextEmptyIsFree(s);
    var t := AddItem(s, item).0;
    if s.nextEmpty == |s.cells| {
      CountAppend(s.cells, Used(1, item));
    } else {
      CountUpdate(s.cells, s.nextEmpty, Used(1, item));
    }
  }

  lemma AddRefGrew<T>(s: Slab<T>, p: Ptr)
    requires InUse(s, p)
    ensures SlabGrew(s, AddRef(s, p), 0, 1)
  {
    CountUpdate(s.cells, p, AddRef(s, p).cells[p]);
  }

  lemma RemoveRefGrew<T>(s: Slab<T>, p: Ptr)
    requires InUse(s, p) && s.cells[p].refs >= 1
    ensures SlabGrew(s, RemoveRef(s, p), 0, 0)
  {
    CountUpdate(s.cells, p, RemoveRef(s, p).cells[p]);
  }

  lemma SetItemGrew<T>(s: Slab<T>, p: Ptr, item: T)
    requires InUse(s, p)
    ensures SlabGrew(s, SetItem(s, p, item), 0, 0)
  {
    CountUpdate(s.cells, p, SetItem(s, p, item).cells[p]);
  }

  lemma ShadowGrew<T>(s: Slab<T>, p: Ptr)
    requires WellFormed(s) && InUse(s, p) && s.cells[p].refs > 1
    ensures s.nextEmpty <= |s.cells|
    ensures s.nextEmpty < |s.cells| ==> s.cells[s.nextEmpty].Empty?
    ensures SlabGrew(s, Shadow(s, p).0, 1, 0)
  {
    AddItemGrew(s, s.cells[p].item);
    var t := AddItem(s, s.cells[p].item).0;
    RemoveRefGrew(t, p);
    SlabGrewTrans(s, t, Shadow(s, p).0, 1, 0, 0, 0);
  }

  lemma SlabGrewRefl<T>(s: Slab<T>)
    ensures SlabGrew(s, s, 0, 0)
  {
  }

  lemma SlabGrewTrans<T>(a: Slab<T>, b: Slab<T>, c: Slab<T>, slots: nat, refs: nat, slots': nat, refs': nat)
    requires SlabGrew(a, b, slots, refs) && SlabGrew(b, c, slots', refs')
    ensures SlabGrew(a, c, slots + slots', refs + refs')
  {
  }

  // ---------- Sharing many references at once ----------

  /** The slab after each pointer in `ms` gained a reference for each of its copies. */
  function SlabCloned<T>(s: Slab<T>, ms: multiset<Ptr>): (t: Slab<T>)
    ensures |t.cells| == |s.cells|
  {
    s.(cells := seq(|s.cells|, p requires 0 <= p < |s.cells| =>
      if s.cells[p].Used? then Used(s.cells[p].refs + ms[p], s.cells[p].item) else s.cells[p]))
  }

  /** All these references fit. */
  ghost predicate SlabCloneFits<T>(s: Slab<T>, ms: multiset<Ptr>) {
    forall p: Ptr :: p in ms && InUse(s, p) ==> s.cells[p].refs + ms[p] <= LIMIT
  }

  /** Largest number of copies of one pointer. */
  ghost function Most(ms: multiset<Ptr>): (n: nat)
    ensures forall p :: ms[p] <= n
    ensures n <= |ms|
    decreases |ms|
  {
    if ms == multiset{} then 0
    else
      var p :| p in ms;
      var rest := ms[p := 0];
      assert |rest| + ms[p] == |ms| by { assert ms == rest[p := ms[p]]; }
      assert forall q :: q != p ==> ms[q] == rest[q];
      if Most(rest) > ms[p] then Most(rest) else ms[p]
  }

  lemma SlabClonedGrew<T>(s: Slab<T>, ms: multiset<Ptr>)
    ensures SlabGrew(s, SlabCloned(s, ms), 0, Most(ms))
  {
    CountFewer(s.cells, SlabCloned(s, ms).cells);
  }

  lemma FitsClone<T>(s: Slab<T>, slots: nat, refs: nat, ms: multiset<Ptr>)
    requires SlabFits(s, slots, refs) && Most(ms) <= refs
    ensures SlabCloneFits(s, ms)
  {
  }

  // ---------- All slabs of a tree ----------

  ghost predicate TreeFits<T>(lv: Levels<T>, slots: nat, refs: nat) {
    match lv
    case Leaf(data) => SlabFits(data, slots, refs)
    case Node(dir, below) => SlabFits(dir, slots, refs) && TreeFits(below, slots, refs)
  }

  ghost predicate TreeGrew<T>(a: Levels<T>, b: Levels<T>, slots: nat, refs: nat) {
    match (a, b)
    case (Leaf(data), Leaf(data')) => SlabGrew(data, data', slots, refs)
    case (Node(dir, below), Node(dir', below')) =>
      SlabGrew(dir, dir', slots, refs) && TreeGrew(below, below', slots, refs)
    case _ => false
  }

  lemma {:induction false} TreeGrewRefl<T>(lv: Levels<T>, slots: nat, refs: nat)
    ensures TreeGrew(lv, lv, slots, refs)
  {
    if lv.Node? {
      TreeGrewRefl(lv.below, slots, refs);
    }
  }

  lemma {:induction false} TreeGrewTrans<T>(a: Levels<T>, b: Levels<T>, c: Levels<T>, slots: nat, refs: nat,
                                            slots': nat, refs': nat)
    requires TreeGrew(a, b, slots, refs) && TreeGrew(b, c, slots', refs')
    ensures TreeGrew(a, c, slots + slots', refs + refs')
  {
    match (a, b, c)
    case (Leaf(x), Leaf(y), Leaf(z)) => SlabGrewTrans(x, y, z, slots, refs, slots', refs');
    case (Node(x, a'), Node(y, b'), Node(z, c')) =>
      SlabGrewTrans(x, y, z, slots, refs, slots', refs');
      TreeGrewTrans(a', b', c', slots, refs, slots', refs');
  }

  lemma {:induction false} TreeGrewMore<T>(a: Levels<T>, b: Levels<T>, slots: nat, refs: nat, slots': nat, refs': nat)
    requires TreeGrew(a, b, slots, refs) && slots <= slots' && refs <= refs'
    ensures TreeGrew(a, b, slots', refs')
  {
    if a.Node? {
      TreeGrewMore(a.below, b.below, slots, refs, slots', refs');
    }
  }

  lemma SlabFitsAfter<T>(s: Slab<T>, t: Slab<T>, slots: nat, refs: nat, taken: nat, added: nat)
    requires SlabFits(s, taken + slots, added + refs) && SlabGrew(s, t, taken, added)
    ensures SlabFits(t, slots, refs)
  {
  }

  /** What is left of the room after something was taken. */
  lemma {:induction false} FitsAfter<T>(a: Levels<T>, b: Levels<T>, slots: nat, refs: nat, taken: nat, added: nat)
    requires TreeFits(a, taken + slots, added + refs) && TreeGrew(a, b, taken, added)
    ensures TreeFits(b, slots, refs)
  {
    match (a, b)
    case (Leaf(s), Leaf(t)) => SlabFitsAfter(s, t, slots, refs, taken, added);
    case (Node(s, a'), Node(t, b')) =>
      SlabFitsAfter(s, t, slots, refs, taken, added);
      FitsAfter(a', b', slots, refs, taken, added);
  }

  lemma {:induction false} FitsFewer<T>(lv: Levels<T>, slots: nat, refs: nat, slots': nat, refs': nat)
    requires TreeFits(lv, slots, refs) && slots' <= slots && refs' <= refs
    ensures TreeFits(lv, slots', refs')
  {
    if lv.Node? {
      FitsFewer(lv.below, slots, refs, slots', refs');
    }
  }

  // ---------- Room for pages ----------

  /** Every table takes `n` more pages, and its pages the references that the entries of `n` page-table
      pages make. */
  ghost predicate PagesFit<T>(lv: Levels<T>, n: nat) {
    TreeFits(lv, n, PAGE_SIZE * n)
  }

  /** No more was taken than for `n` pages. */
  ghost predicate PagesGrew<T>(a: Levels<T>, b: Levels<T>, n: nat) {
    TreeGrew(a, b, n, PAGE_SIZE * n)
  }

  lemma PagesGrewRefl<T>(lv: Levels<T>)
    ensures PagesGrew(lv, lv, 0)
  {
    TreeGrewRefl(lv, 0, 0);
  }

  lemma PagesGrewTrans<T>(a: Levels<T>, b: Levels<T>, c: Levels<T>, n: nat, m: nat)
    requires PagesGrew(a, b, n) && PagesGrew(b, c, m)
    ensures PagesGrew(a, c, n + m)
  {
    TreeGrewTrans(a, b, c, n, PAGE_SIZE * n, m, PAGE_SIZE * m);
  }

  lemma PagesGrewMore<T>(a: Levels<T>, b: Levels<T>, n: nat, m: nat)
    requires PagesGrew(a, b, n) && n <= m
    ensures PagesGrew(a, b, m)
  {
    TreeGrewMore(a, b, n, PAGE_SIZE * n, m, PAGE_SIZE * m);
  }

  /** With `n` of `total` pages taken, `m` more still fit. */
  lemma PagesFitAfter<T>(a: Levels<T>, b: Levels<T>, n: nat, m: nat, total: nat)
    requires PagesGrew(a, b, n) && n + m <= total
    ensures PagesFit(a, total) ==> PagesFit(b, m)
  {
    if PagesFit(a, total) {
      FitsFewer(a, total, PAGE_SIZE * total, n + m, PAGE_SIZE * n + PAGE_SIZE * m);
      FitsAfter(a, b, m, PAGE_SIZE * m, n, PAGE_SIZE * n);
    }
  }

  // ---------- Sharing many pages at once ----------

  /** The tree after each pointer in `ms` to its topmost table gained a reference for each of its copies. */
  function Cloned<T>(lv: Levels<T>, ms: multiset<Ptr>): Levels<T> {
    match lv
    case Leaf(data) => Leaf(SlabCloned(data, ms))
    case Node(dir, below) => Node(SlabCloned(dir, ms), below)
  }

  ghost predicate CloneFits<T>(lv: Levels<T>, ms: multiset<Ptr>) {
    match lv
    case Leaf(data) => SlabCloneFits(data, ms)
    case Node(dir, below) => SlabCloneFits(dir, ms)
  }

  lemma ClonedGrew<T>(lv: Levels<T>, ms: multiset<Ptr>)
    ensures TreeGrew(lv, Cloned(lv, ms), 0, Most(ms))
  {
    match lv
    case Leaf(data) => SlabClonedGrew(data, ms);
    case Node(dir, below) =>
      SlabClonedGrew(dir, ms);
      TreeGrewRefl(below, 0, Most(ms));
  }

  lemma TreeFitsClone<T>(lv: Levels<T>, slots: nat, refs: nat, ms: multiset<Ptr>)
    requires TreeFits(lv, slots, refs) && Most(ms) <= refs
    ensures CloneFits(lv, ms)
  {
  }

  lemma SlabClonedMore<T>(s: Slab<T>, x: multiset<Ptr>, y: multiset<Ptr>)
    ensures SlabCloned(SlabCloned(s, x), y) == SlabCloned(s, x + y)
    ensures SlabCloneFits(s, x + y) <==> SlabCloneFits(s, x) && SlabCloneFits(SlabCloned(s, x), y)
  {
    assert SlabCloned(SlabCloned(s, x), y).cells == SlabCloned(s, x + y).cells;
  }

  lemma ClonedMore<T>(lv: Levels<T>, x: multiset<Ptr>, y: multiset<Ptr>)
    ensures Cloned(Cloned(lv, x), y) == Cloned(lv, x + y)
    ensures CloneFits(lv, x + y) <==> CloneFits(lv, x) && CloneFits(Cloned(lv, x), y)
  {
    match lv
    case Leaf(data) => SlabClonedMore(data, x, y);
    case Node(dir, below) => SlabClonedMore(dir, x, y);
  }

  lemma CloneFitsFewer<T>(lv: Levels<T>, ms: multiset<Ptr>, fewer: multiset<Ptr>)
    requires CloneFits(lv, ms) && fewer <= ms
    ensures CloneFits(lv, fewer)
  {
  }

  lemma SlabCloneOneMore<T>(s: Slab<T>, ms: multiset<Ptr>, p: Ptr)
    requires InUse(s, p)
    ensures InUse(SlabCloned(s, ms), p) && AddRef(SlabCloned(s, ms), p) == SlabCloned(s, ms + multiset{p})
    ensures SlabCloneFits(s, ms) && SlabCloned(s, ms).cells[p].refs < LIMIT ==> SlabCloneFits(s, ms + multiset{p})
  {
    assert AddRef(SlabCloned(s, ms), p).cells == SlabCloned(s, ms + multiset{p}).cells;
  }

  lemma SlabCloneTooMany<T>(s: Slab<T>, ms: multiset<Ptr>, p: Ptr, all: multiset<Ptr>)
    requires InUse(s, p) && SlabCloned(s, ms).cells[p].refs >= LIMIT && ms + multiset{p} <= all
    ensures !SlabCloneFits(s, all)
  {
    assert all[p] >= (ms + multiset{p})[p] == ms[p] + 1;
  }

  lemma SlabClonedNone<T>(s: Slab<T>)
    ensures SlabCloned(s, multiset{}) == s && SlabCloneFits(s, multiset{})
  {
    assert SlabCloned(s, multiset{}).cells == s.cells;
  }

  lemma ClonedNone<T>(lv: Levels<T>)
    ensures Cloned(lv, multiset{}) == lv && CloneFits(lv, multiset{})
  {
    match lv
    case Leaf(data) => assert SlabCloned(data, multiset{}).cells == data.cells;
    case Node(dir, below) => assert SlabCloned(dir, multiset{}).cells == dir.cells;
  }

  lemma ClonedOne<T>(lv: Levels<T>, p: Ptr)
    requires TopInUse(lv, p)
    ensures Cloned(lv, multiset{p}) == CloneTop(lv, p)
    ensures CloneFits(lv, multiset{p}) <==> TopRefs(lv, p) < LIMIT
  {
    match lv
    case Leaf(data) => assert SlabCloned(data, multiset{p}).cells == AddRef(data, p).cells;
    case Node(dir, below) => assert SlabCloned(dir, multiset{p}).cells == AddRef(dir, p).cells;
  }

  lemma ClonedTop<T>(lv: Levels<T>, ms: multiset<Ptr>, p: Ptr)
    ensures Height(Cloned(lv, ms)) == Height(lv) && TopInUse(Cloned(lv, ms), p) == TopInUse(lv, p)
    ensures TopInUse(lv, p) ==> TopRefs(Cloned(lv, ms), p) == TopRefs(lv, p) + ms[p]
  {
  }

  /** One reference more: it fits exactly when the count of its page is below the limit. */
  lemma CloneOneMore<T>(lv: Levels<T>, ms: multiset<Ptr>, p: Ptr)
    requires TopInUse(lv, p)
    ensures TopInUse(Cloned(lv, ms), p) && CloneTop(Cloned(lv, ms), p) == Cloned(lv, ms + multiset{p})
    ensures CloneFits(lv, ms) && TopRefs(Cloned(lv, ms), p) < LIMIT ==> CloneFits(lv, ms + multiset{p})
  {
    ClonedMore(lv, ms, multiset{p});
    ClonedTop(lv, ms, p);
    ClonedOne(Cloned(lv, ms), p);
  }

  lemma CloneTooMany<T>(lv: Levels<T>, ms: multiset<Ptr>, p: Ptr, all: multiset<Ptr>)
    requires TopInUse(lv, p) && TopRefs(Cloned(lv, ms), p) >= LIMIT && ms + multiset{p} <= all
    ensures !CloneFits(lv, all)
  {
    assert all[p] >= (ms + multiset{p})[p] == ms[p] + 1;
  }

  // ---------- Growth of the topmost table ----------

  /** Only the topmost table changed, and by no more than this. */
  ghost predicate TopGrew<T>(a: Levels<T>, b: Levels<T>, slots: nat, refs: nat) {
    match (a, b)
    case (Leaf(data), Leaf(data')) => SlabGrew(data, data', slots, refs)
    case (Node(dir, below), Node(dir', below')) => SlabGrew(dir, dir', slots, refs) && below == below'
    case _ => false
  }

  lemma ClonedTopGrew<T>(lv: Levels<T>, ms: multiset<Ptr>, refs: nat)
    requires Most(ms) <= refs
    ensures TopGrew(lv, Cloned(lv, ms), 0, refs)
  {
    match lv
    case Leaf(data) => SlabClonedGrew(data, ms);
    case Node(dir, below) => SlabClonedGrew(dir, ms);
  }

  /** A new page in every table: the topmost one has one reference, those below at most one for each
      entry of the page above. */
  ghost predicate PageEach<T>(a: Levels<T>, b: Levels<T>) {
    match (a, b)
    case (Leaf(data), Leaf(data')) => SlabGrew(data, data', 1, 0)
    case (Node(dir, below), Node(dir', below')) => SlabGrew(dir, dir', 1, 0) && PagesGrew(below, below', 1)
    case _ => false
  }

  lemma PageEachGrew<T>(a: Levels<T>, b: Levels<T>)
    requires PageEach(a, b)
    ensures PagesGrew(a, b, 1)
  {
  }

  /** The references that a page above makes. */
  lemma PageEachShared<T>(a: Levels<T>, b: Levels<T>, c: Levels<T>)
    requires PageEach(a, b) && TopGrew(b, c, 0, PAGE_SIZE)
    ensures PagesGrew(a, c, 1)
  {
  }

  lemma PageEachFits<T>(a: Levels<T>, b: Levels<T>, page: seq<Ptr>)
    requires PageEach(a, b) && |page| == PAGE_SIZE
    ensures PagesFit(a, 1) ==> CloneFits(b, multiset(page))
  {
    if PagesFit(a, 1) {
      match (a, b)
      case (Leaf(s), Leaf(t)) => FitsClone(t, 0, PAGE_SIZE, multiset(page));
      case (Node(s, below), Node(t, below')) => FitsClone(t, 0, PAGE_SIZE, multiset(page));
    }
  }
}
