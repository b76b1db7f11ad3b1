/** Paged arrays as radix trees over slabs, one slab a layer.
    `Levels` lists the slabs from the top-level page table down to the data pages. A page is shared
    by any number of entries, arrays and snapshots; a multiset of live pointers says which ones
    must stay readable. */
module RadixTree {
  import opened Options
  import opened Slabs

  const PAGE_SIZE: nat := 64

  datatype Levels<T> = Leaf(data: Slab<seq<T>>) | Node(dir: Slab<seq<Ptr>>, below: Levels<T>)

  /** Number of items below one top-level page. */
  function Size<T>(lv: Levels<T>): (n: nat)
    ensures n >= PAGE_SIZE
  {
    match lv
    case Leaf(_) => PAGE_SIZE
    case Node(_, below) => PAGE_SIZE * Size(below)
  }

  function Height<T>(lv: Levels<T>): nat {
    match lv
    case Leaf(_) => 0
    case Node(_, below) => 1 + Height(below)
  }

  /** `pow(PAGE_SIZE, n)` */
  function Power64(n: nat): (r: nat)
    ensures r > 0
  {
    if n == 0 then 1 else PAGE_SIZE * Power64(n - 1)
  }

  lemma {:induction false} SizeIsPower<T>(lv: Levels<T>)
    ensures Size(lv) == Power64(Height(lv) + 1)
  {
    if lv.Node? {
      SizeIsPower(lv.below);
    }
  }

  /** Where tree `e` starts in a concatenation of trees. */
  function Start<T>(lv: Levels<T>, e: nat): nat {
    if e == 0 then 0 else Size(lv) + Start(lv, e - 1)
  }

  lemma {:induction false} StartIsProduct<T>(lv: Levels<T>, e: nat)
    ensures Start(lv, e) == e * Size(lv)
  {
    if e > 0 {
      StartIsProduct(lv, e - 1);
      assert e * Size(lv) == Size(lv) + (e - 1) * Size(lv);
    }
  }

  lemma {:induction false} SizeFromHeight<T>(a: Levels<T>, b: Levels<T>)
    requires Height(a) == Height(b)
    ensures Size(a) == Size(b)
  {
    if a.Node? {
      SizeFromHeight(a.below, b.below);
    }
  }

  /** What position `i` below the page at `p` reads as; None for a dangling pointer. */
  function At<T>(lv: Levels<T>, p: Ptr, i: nat): Option<T>
    decreases lv, 0
  {
    match lv
    case Leaf(data) =>
      if InUse(data, p) && i < |data.cells[p].item| then Some(data.cells[p].item[i]) else None
    case Node(dir, below) =>
      if InUse(dir, p) then Through(below, dir.cells[p].item, i) else None
  }

  /** What position `i` of the concatenation of the trees named by `ptrs` reads as. */
  function Through<T>(lv: Levels<T>, ptrs: seq<Ptr>, i: nat): Option<T>
    decreases lv, 1, |ptrs|
  {
    if ptrs == [] then None
    else if i < Size(lv) then At(lv, ptrs[0], i)
    else Through(lv, ptrs[1..], i - Size(lv))
  }

  predicate TopInUse<T>(lv: Levels<T>, p: Ptr) {
    match lv
    case Leaf(data) => InUse(data, p)
    case Node(dir, _) => InUse(dir, p)
  }

  function TopRefs<T>(lv: Levels<T>, p: Ptr): nat {
    match lv
    case Leaf(data) => if InUse(data, p) then data.cells[p].refs else 0
    case Node(dir, _) => if InUse(dir, p) then dir.cells[p].refs else 0
  }

  /** Some slab of the tree has no room for the next item or reference. */
  ghost predicate OutOfRoom<T>(lv: Levels<T>) {
    match lv
    case Leaf(data) => Exhausted(data)
    case Node(dir, below) => Exhausted(dir) || OutOfRoom(below)
  }

  // ---------- Pointers held by pages ----------

  function CellPtrs(c: Cell<seq<Ptr>>): multiset<Ptr> {
    if c.Used? then multiset(c.item) else multiset{}
  }

  /** All pointers stored in the filled pages of one page table. */
  function Entries(cells: seq<Cell<seq<Ptr>>>): multiset<Ptr> {
    if cells == [] then multiset{} else Entries(cells[..|cells| - 1]) + CellPtrs(cells[|cells| - 1])
  }

  lemma {:induction false} EntriesUpdate(cells: seq<Cell<seq<Ptr>>>, i: nat, c: Cell<seq<Ptr>>)
    requires i < |cells|
    ensures Entries(cells[i := c]) + CellPtrs(cells[i]) == Entries(cells) + CellPtrs(c)
  {
    hide Entries, CellPtrs;
    var n := |cells| - 1;
    var after := cells[i := c];
    EntriesLast(cells);
    EntriesLast(after);
    if i < n {
      assert after[..n] == cells[..n][i := c];
      EntriesUpdate(cells[..n], i, c);
      AddBoth(Entries(cells[..n]), Entries(after[..n]), CellPtrs(cells[n]), CellPtrs(cells[i]), CellPtrs(c));
    } else {
      assert after[..n] == cells[..n];
      Commute(Entries(cells[..n]), CellPtrs(c), CellPtrs(cells[n]));
    }
  }

  lemma EntriesLast(cells: seq<Cell<seq<Ptr>>>)
    requires cells != []
    ensures Entries(cells) == Entries(cells[..|cells| - 1]) + CellPtrs(cells[|cells| - 1])
  {
  }

  lemma AddBoth(x: multiset<Ptr>, y: multiset<Ptr>, z: multiset<Ptr>, a: multiset<Ptr>, b: multiset<Ptr>)
    requires y + a == x + b
    ensures (y + z) + a == (x + z) + b
  {
    forall p ensures ((y + z) + a)[p] == ((x + z) + b)[p] {
      assert (y + a)[p] == (x + b)[p];
    }
  }

  lemma Commute(x: multiset<Ptr>, a: multiset<Ptr>, b: multiset<Ptr>)
    ensures (x + a) + b == (x + b) + a
  {
  }

  lemma EntriesAppend(cells: seq<Cell<seq<Ptr>>>, c: Cell<seq<Ptr>>)
    ensures Entries(cells + [c]) == Entries(cells) + CellPtrs(c)
  {
  }

  lemma {:induction false} EntriesContain(cells: seq<Cell<seq<Ptr>>>, i: nat)
    requires i < |cells|
    ensures CellPtrs(cells[i]) <= Entries(cells)
  {
    var n := |cells| - 1;
    if i < n {
      EntriesContain(cells[..n], i);
    }
  }

  lemma EntryIsLive(s: Slab<seq<Ptr>>, p: Ptr, e: nat)
    requires InUse(s, p) && e < |s.cells[p].item|
    ensures s.cells[p].item[e] in Entries(s.cells)
  {
    EntriesContain(s.cells, p);
    assert s.cells[p].item[e] in CellPtrs(s.cells[p]);
  }

  /** Pages other than `i` keep all their pointers when those of page `i` are set aside. */
  lemma EntriesElsewhere(cells: seq<Cell<seq<Ptr>>>, i: nat, j: nat)
    requires i < |cells| && j < |cells| && i != j
    ensures CellPtrs(cells[i]) + CellPtrs(cells[j]) <= Entries(cells)
  {
    var without := cells[i := Empty(0)];
    EntriesUpdate(cells, i, Empty(0));
    EntriesContain(without, j);
    assert Entries(without) + CellPtrs(cells[i]) == Entries(cells);
    assert CellPtrs(without[j]) == CellPtrs(cells[j]) <= Entries(without);
  }

  // ---------- Soundness of references ----------

  ghost predicate PagesFull<X>(s: Slab<seq<X>>) {
    forall p: Ptr :: InUse(s, p) ==> |s.cells[p].item| == PAGE_SIZE
  }

  /** Every pointer in `live`, and every pointer stored in a filled page, names a filled slot whose
      reference count is at least the number of such pointers to it. */
  ghost predicate Sound<T>(lv: Levels<T>, live: multiset<Ptr>) {
    match lv
    case Leaf(data) => WellFormed(data) && PagesFull(data) && Covers(data, live)
    case Node(dir, below) =>
      WellFormed(dir) && PagesFull(dir) && Covers(dir, live) && Sound(below, Entries(dir.cells))
  }

  lemma {:induction false} SoundFewer<T>(lv: Levels<T>, live: multiset<Ptr>, fewer: multiset<Ptr>)
    requires Sound(lv, live) && fewer <= live
    ensures Sound(lv, fewer)
  {
  }

  lemma LiveIsInUse<T>(lv: Levels<T>, live: multiset<Ptr>, p: Ptr)
    requires Sound(lv, live) && p in live
    ensures TopInUse(lv, p) && TopRefs(lv, p) >= 1
  {
  }

  lemma PageInUse<T>(dir: Slab<seq<Ptr>>, below: Levels<T>, live: multiset<Ptr>, p: Ptr)
    requires Sound(Node(dir, below), live) && InUse(dir, p)
    ensures forall c :: c in dir.cells[p].item ==> TopInUse(below, c)
  {
    forall c | c in dir.cells[p].item ensures TopInUse(below, c) {
      var e :| 0 <= e < |dir.cells[p].item| && dir.cells[p].item[e] == c;
      EntryIsLive(dir, p, e);
      LiveIsInUse(below, Entries(dir.cells), c);
    }
  }

  /** Following live pointers never meets an empty slot. */
  lemma {:induction false} LiveReads<T>(lv: Levels<T>, live: multiset<Ptr>, p: Ptr, i: nat)
    requires Sound(lv, live) && p in live
    ensures At(lv, p, i).Some? <==> i < Size(lv)
    decreases lv, 0
  {
    if lv.Node? {
      var page := lv.dir.cells[p].item;
      EntriesContain(lv.dir.cells, p);
      forall c | c in page ensures c in Entries(lv.dir.cells) {
        assert c in CellPtrs(lv.dir.cells[p]);
      }
      LiveReadsThrough(lv.below, Entries(lv.dir.cells), page, i);
      StartIsProduct(lv.below, PAGE_SIZE);
    }
  }

  lemma {:induction false} LiveReadsThrough<T>(lv: Levels<T>, live: multiset<Ptr>, ptrs: seq<Ptr>, i: nat)
    requires Sound(lv, live) && forall c :: c in ptrs ==> c in live
    ensures Through(lv, ptrs, i).Some? <==> i < Start(lv, |ptrs|)
    decreases lv, 1, |ptrs|
  {
    if ptrs != [] {
      LiveReads(lv, live, ptrs[0], i);
      if i >= Size(lv) {
        LiveReadsThrough(lv, live, ptrs[1..], i - Size(lv));
      }
    }
  }

  /** Position `off` of tree `e`, counted from the start of the concatenation. */
  lemma {:induction false} ThroughEntry<T>(lv: Levels<T>, ptrs: seq<Ptr>, e: nat, off: nat)
    requires e < |ptrs| && off < Size(lv)
    ensures Through(lv, ptrs, Start(lv, e) + off) == At(lv, ptrs[e], off)
  {
    if e > 0 {
      ThroughEntry(lv, ptrs[1..], e - 1, off);
    }
  }

  // ---------- Comparing two states ----------

  /** Every pointer in `live` reads the same in both states. */
  ghost predicate SameReads<T>(a: Levels<T>, b: Levels<T>, live: multiset<Ptr>) {
    forall q, i: nat :: q in live ==> At(b, q, i) == At(a, q, i)
  }

  /** The tree named by `p` was overwritten with `buf` from position `index` on. Its new name is
      `p'`, of which the caller is the sole owner; everything else reads as before. */
  ghost predicate Wrote<T>(a: Levels<T>, b: Levels<T>, live: multiset<Ptr>, p: Ptr, p': Ptr, index: nat, buf: seq<T>) {
    && Height(a) == Height(b)
    && Sound(b, live - multiset{p} + multiset{p'})
    && TopRefs(b, p') == 1
    && SameReads(a, b, live - multiset{p})
    && forall i: nat :: At(b, p', i) == if index <= i < index + |buf| then Some(buf[i - index]) else At(a, p, i)
  }

  lemma Compose<T>(a: Levels<T>, b: Levels<T>, c: Levels<T>, live: multiset<Ptr>, p: Ptr, p': Ptr, p'': Ptr,
                   index: nat, buf: seq<T>, buf': seq<T>)
    requires p in live
    requires Wrote(a, b, live, p, p', index, buf)
    requires Wrote(b, c, live - multiset{p} + multiset{p'}, p', p'', index + |buf|, buf')
    ensures Wrote(a, c, live, p, p'', index, buf + buf')
  {
    var rest := live - multiset{p};
    assert rest + multiset{p'} - multiset{p'} == rest;
    forall q, i: nat | q in rest ensures At(c, q, i) == At(a, q, i) {
      assert At(b, q, i) == At(a, q, i);
    }
    forall i: nat ensures At(c, p'', i) == if index <= i < index + |buf + buf'| then Some((buf + buf')[i - index])
      else At(a, p, i) {
      assert At(b, p', i) == if index <= i < index + |buf| then Some(buf[i - index]) else At(a, p, i);
    }
  }

  /** Every pointer reads the same and names a filled page in one state iff in the other. */
  ghost predicate Unchanged<T>(a: Levels<T>, b: Levels<T>) {
    && Height(a) == Height(b)
    && (forall q: Ptr, i: nat :: At(b, q, i) == At(a, q, i))
    && (forall q: Ptr :: TopInUse(b, q) == TopInUse(a, q))
  }

  lemma UnchangedReads<T>(a: Levels<T>, b: Levels<T>)
    requires Unchanged(a, b)
    ensures Height(a) == Height(b) && forall q: Ptr, i: nat :: At(b, q, i) == At(a, q, i)
  {
  }

  lemma UnchangedRefl<T>(a: Levels<T>)
    ensures Unchanged(a, a)
  {
  }

  lemma UnchangedTrans<T>(a: Levels<T>, b: Levels<T>, c: Levels<T>)
    requires Unchanged(a, b) && Unchanged(b, c)
    ensures Unchanged(a, c)
  {
  }

  // ---------- Duplicating a shared page ----------

  function CloneTop<T>(lv: Levels<T>, p: Ptr): Levels<T>
    requires TopInUse(lv, p)
  {
    match lv
    case Leaf(data) => Leaf(AddRef(data, p))
    case Node(dir, below) => Node(AddRef(dir, p), below)
  }

  lemma AddRefCovers<X>(s: Slab<X>, live: multiset<Ptr>, p: Ptr)
    requires Covers(s, live) && InUse(s, p)
    ensures Covers(AddRef(s, p), live + multiset{p})
  {
  }

  lemma CloneTopSound<T>(lv: Levels<T>, live: multiset<Ptr>, p: Ptr)
    requires Sound(lv, live) && TopInUse(lv, p)
    ensures Sound(CloneTop(lv, p), live + multiset{p})
  {
    match lv
    case Leaf(data) =>
      AddRefKeeps(data, p);
      AddRefCovers(data, live, p);
    case Node(dir, below) =>
      AddRefKeeps(dir, p);
      AddRefCovers(dir, live, p);
      SameCellPtrs(dir.cells, p, AddRef(dir, p).cells[p]);
  }

  lemma CloneTopAt<T>(lv: Levels<T>, p: Ptr, q: Ptr, i: nat)
    requires TopInUse(lv, p)
    ensures At(CloneTop(lv, p), q, i) == At(lv, q, i)
  {
  }

  lemma CloneTopKeeps<T>(lv: Levels<T>, live: multiset<Ptr>, p: Ptr)
    requires Sound(lv, live) && TopInUse(lv, p)
    ensures Sound(CloneTop(lv, p), live + multiset{p})
    ensures Unchanged(lv, CloneTop(lv, p))
  {
    CloneTopSound(lv, live, p);
    hide Sound, At;
    forall q: Ptr, i: nat ensures At(CloneTop(lv, p), q, i) == At(lv, q, i) {
      CloneTopAt(lv, p, q, i);
    }
  }

  lemma SameCellPtrs(cells: seq<Cell<seq<Ptr>>>, i: nat, c: Cell<seq<Ptr>>)
    requires i < |cells| && CellPtrs(c) == CellPtrs(cells[i])
    ensures Entries(cells[i := c]) == Entries(cells)
  {
    EntriesUpdate(cells, i, c);
    var x, y, z := Entries(cells), Entries(cells[i := c]), CellPtrs(c);
    forall q: Ptr ensures y[q] == x[q] {
      assert (y + z)[q] == (x + z)[q];
    }
  }

  lemma ShadowEntries(s: Slab<seq<Ptr>>, p: Ptr)
    requires WellFormed(s) && InUse(s, p) && s.cells[p].refs > 1
    ensures s.nextEmpty <= |s.cells|
    ensures s.nextEmpty < |s.cells| ==> s.cells[s.nextEmpty].Empty?
    ensures Entries(Shadow(s, p).0.cells) == Entries(s.cells) + multiset(s.cells[p].item)
  {
    NextEmptyIsFree(s);
    var item := s.cells[p].item;
    var (u, p') := AddItem(s, item);
    AddItemEntries(s, item);
    assert u.cells[p] == s.cells[p];
    SameCellPtrs(u.cells, p, RemoveRef(u, p).cells[p]);
  }

  lemma AddItemEntries(s: Slab<seq<Ptr>>, item: seq<Ptr>)
    requires s.nextEmpty <= |s.cells|
    requires s.nextEmpty < |s.cells| ==> s.cells[s.nextEmpty].Empty?
    ensures Entries(AddItem(s, item).0.cells) == Entries(s.cells) + multiset(item)
  {
    if s.nextEmpty == |s.cells| {
      EntriesAppend(s.cells, Used(1, item));
    } else {
      EntriesUpdate(s.cells, s.nextEmpty, Used(1, item));
    }
  }

  /** Duplicating a shared data page changes no reading and makes the caller its sole owner. */
  lemma ShadowLeaf<T>(data: Slab<seq<T>>, live: multiset<Ptr>, p: Ptr, index: nat)
    requires Sound(Leaf(data), live) && p in live && data.cells[p].refs > 1
    ensures data.nextEmpty <= |data.cells|
    ensures data.nextEmpty < |data.cells| ==> data.cells[data.nextEmpty].Empty?
    ensures var (t, p') := Shadow(data, p); Wrote(Leaf(data), Leaf(t), live, p, p', index, [])
  {
    ShadowKeeps(data, live, p);
    var (t, p') := Shadow(data, p);
    var a, b := Leaf(data), Leaf(t);
    forall q: Ptr, i: nat | q != p' ensures At(b, q, i) == At(a, q, i) {
      assert ItemAt(t, q) == ItemAt(data, q);
    }
  }

  /** Duplicating a shared page-table page, after one extra reference was taken for each of its
      entries, changes no reading and makes the caller its sole owner. */
  lemma ShadowNode<T>(dir: Slab<seq<Ptr>>, below: Levels<T>, below': Levels<T>, live: multiset<Ptr>, p: Ptr, index: nat)
    requires Sound(Node(dir, below), live) && p in live && dir.cells[p].refs > 1
    requires Height(below') == Height(below)
    requires Sound(below', Entries(dir.cells) + multiset(dir.cells[p].item))
    requires forall q: Ptr, i: nat :: At(below', q, i) == At(below, q, i)
    ensures dir.nextEmpty <= |dir.cells|
    ensures dir.nextEmpty < |dir.cells| ==> dir.cells[dir.nextEmpty].Empty?
    ensures var (t, p') := Shadow(dir, p); Wrote(Node(dir, below), Node(t, below'), live, p, p', index, [])
  {
    ShadowNodeSound(dir, below', live, p);
    ShadowNodeReads(dir, below, below', live, p);
  }

  lemma ShadowNodeReads<T>(dir: Slab<seq<Ptr>>, below: Levels<T>, below': Levels<T>, live: multiset<Ptr>, p: Ptr)
    requires WellFormed(dir) && Covers(dir, live) && p in live && dir.cells[p].refs > 1
    requires Height(below') == Height(below)
    requires forall q: Ptr, i: nat :: At(below', q, i) == At(below, q, i)
    ensures dir.nextEmpty <= |dir.cells|
    ensures dir.nextEmpty < |dir.cells| ==> dir.cells[dir.nextEmpty].Empty?
    ensures var (t, p') := Shadow(dir, p);
      var a, b := Node(dir, below), Node(t, below');
      && TopRefs(b, p') == 1
      && SameReads(a, b, live - multiset{p})
      && forall i: nat :: At(b, p', i) == At(a, p, i)
  {
    ShadowKeeps(dir, live, p);
    var (t, p') := Shadow(dir, p);
    forall q: Ptr, i: nat ensures At(Node(t, below'), q, i) == At(Node(dir, below), if q == p' then p else q, i) {
      SamePage(dir, t, below, below', if q == p' then p else q, q, i);
    }
  }

  lemma ShadowNodeSound<T>(dir: Slab<seq<Ptr>>, below': Levels<T>, live: multiset<Ptr>, p: Ptr)
    requires WellFormed(dir) && PagesFull(dir) && Covers(dir, live) && p in live && dir.cells[p].refs > 1
    requires Sound(below', Entries(dir.cells) + multiset(dir.cells[p].item))
    ensures dir.nextEmpty <= |dir.cells|
    ensures dir.nextEmpty < |dir.cells| ==> dir.cells[dir.nextEmpty].Empty?
    ensures var (t, p') := Shadow(dir, p); Sound(Node(t, below'), live - multiset{p} + multiset{p'})
  {
    ShadowKeeps(dir, live, p);
    var (t, p') := Shadow(dir, p);
    ShadowEntries(dir, p);
    ShadowFull(dir, t, p, p');
  }

  lemma SamePage<T>(dir: Slab<seq<Ptr>>, dir': Slab<seq<Ptr>>, below: Levels<T>, below': Levels<T>, q: Ptr, q': Ptr,
                    i: nat)
    requires ItemAt(dir', q') == ItemAt(dir, q) && Height(below) == Height(below')
    requires forall r: Ptr, j: nat :: At(below', r, j) == At(below, r, j)
    ensures At(Node(dir', below'), q', i) == At(Node(dir, below), q, i)
  {
    if InUse(dir, q) {
      SameThrough(below, below', dir.cells[q].item, i);
    }
  }

  lemma {:induction false} SameThrough<T>(a: Levels<T>, b: Levels<T>, ptrs: seq<Ptr>, i: nat)
    requires Height(a) == Height(b)
    requires forall c, j: nat :: c in ptrs ==> At(b, c, j) == At(a, c, j)
    ensures Through(b, ptrs, i) == Through(a, ptrs, i)
    decreases |ptrs|
  {
    SizeFromHeight(a, b);
    if ptrs != [] && i >= Size(a) {
      SameThrough(a, b, ptrs[1..], i - Size(a));
    }
  }

  /** Replacing tree `e` by one that differs in a span of positions. */
  lemma {:induction false} ReplaceThrough<T>(a: Levels<T>, b: Levels<T>, ptrs: seq<Ptr>, e: nat, c': Ptr, off: nat,
                                             buf: seq<T>, i: nat)
    requires Height(a) == Height(b) && e < |ptrs| && off + |buf| <= Size(a)
    requires forall k, j: nat :: 0 <= k < |ptrs| && k != e ==> At(b, ptrs[k], j) == At(a, ptrs[k], j)
    requires forall j: nat :: At(b, c', j) == if off <= j < off + |buf| then Some(buf[j - off]) else At(a, ptrs[e], j)
    ensures var at := Start(a, e) + off;
      Through(b, ptrs[e := c'], i) == if at <= i < at + |buf| then Some(buf[i - at]) else Through(a, ptrs, i)
    decreases |ptrs|
  {
    SizeFromHeight(a, b);
    var rest := ptrs[1..];
    assert forall k :: 0 <= k < |rest| ==> rest[k] == ptrs[k + 1];
    if i < Size(a) {
      assert e > 0 ==> At(b, ptrs[0], i) == At(a, ptrs[0], i);
    } else if e == 0 {
      assert ptrs[e := c'][1..] == rest;
      forall c, j: nat | c in rest ensures At(b, c, j) == At(a, c, j) {
        var k :| 0 <= k < |rest| && rest[k] == c;
        assert ptrs[k + 1] == c;
      }
      SameThrough(a, b, rest, i - Size(a));
    } else {
      assert ptrs[e := c'][1..] == rest[e - 1 := c'];
      ReplaceThrough(a, b, rest, e - 1, c', off, buf, i - Size(a));
    }
  }

  lemma ShadowFull<X>(s: Slab<seq<X>>, t: Slab<seq<X>>, p: Ptr, p': Ptr)
    requires PagesFull(s) && InUse(s, p)
    requires ItemAt(t, p') == ItemAt(s, p)
    requires forall q: Ptr :: q != p' ==> ItemAt(t, q) == ItemAt(s, q)
    ensures PagesFull(t)
  {
    forall q: Ptr | InUse(t, q) ensures |t.cells[q].item| == PAGE_SIZE {
      assert ItemAt(t, q) == ItemAt(s, if q == p' then p else q);
    }
  }

  /** A page that already has one owner needs no duplication. */
  lemma AlreadyOwned<T>(lv: Levels<T>, live: multiset<Ptr>, p: Ptr, index: nat)
    requires Sound(lv, live) && p in live && TopRefs(lv, p) == 1
    ensures Wrote(lv, lv, live, p, p, index, [])
  {
  }

  // ---------- Writing through an owned page ----------

  /** Overwriting part of an owned data page. */
  lemma WriteLeaf<T>(data: Slab<seq<T>>, live: multiset<Ptr>, p: Ptr, index: nat, buf: seq<T>)
    requires Sound(Leaf(data), live) && p in live && data.cells[p].refs == 1
    requires index + |buf| <= PAGE_SIZE
    ensures var page := data.cells[p].item;
      Wrote(Leaf(data), Leaf(SetItem(data, p, page[..index] + buf + page[index + |buf|..])), live, p, p, index, buf)
  {
    var page := data.cells[p].item;
    var page' := page[..index] + buf + page[index + |buf|..];
    var t := SetItem(data, p, page');
    SetItemKeeps(data, p, page');
    SoleOwner(data, live, p);
    assert live - multiset{p} + multiset{p} == live;
    assert Sound(Leaf(t), live);
    assert t.cells[p].item == page';
  }

  /** Overwriting the tree below one entry of an owned page-table page. */
  lemma WriteEntry<T>(dir: Slab<seq<Ptr>>, below: Levels<T>, below': Levels<T>, live: multiset<Ptr>,
                      p: Ptr, e: nat, c': Ptr, off: nat, buf: seq<T>)
    requires Sound(Node(dir, below), live) && p in live && dir.cells[p].refs == 1 && e < PAGE_SIZE
    requires off + |buf| <= Size(below)
    requires Wrote(below, below', Entries(dir.cells), dir.cells[p].item[e], c', off, buf)
    ensures var dir' := SetItem(dir, p, dir.cells[p].item[e := c']);
      Wrote(Node(dir, below), Node(dir', below'), live, p, p, Start(below, e) + off, buf)
  {
    var dir' := SetItem(dir, p, dir.cells[p].item[e := c']);
    WriteEntrySound(dir, below', live, p, e, c');
    WriteEntryReads(dir, below, below', live, p, e, c', off, buf);
    assert live - multiset{p} + multiset{p} == live;
  }

  lemma WriteEntrySound<T>(dir: Slab<seq<Ptr>>, below': Levels<T>, live: multiset<Ptr>, p: Ptr, e: nat, c': Ptr)
    requires WellFormed(dir) && PagesFull(dir) && Covers(dir, live) && InUse(dir, p) && e < PAGE_SIZE
    requires Sound(below', Entries(dir.cells) - multiset{dir.cells[p].item[e]} + multiset{c'})
    ensures Sound(Node(SetItem(dir, p, dir.cells[p].item[e := c']), below'), live)
  {
    hide Sound, WellFormed, PagesFull, Covers, Entries;
    PageIsFull(dir, p);
    var page': seq<Ptr> := dir.cells[p].item[e := c'];
    SetItemKeeps(dir, p, page');
    SetItemCovers(dir, live, p, page');
    SetEntry(dir, p, e, c');
    NodeSound(SetItem(dir, p, page'), below', live);
  }

  lemma PageIsFull<X>(s: Slab<seq<X>>, p: Ptr)
    requires PagesFull(s) && InUse(s, p)
    ensures |s.cells[p].item| == PAGE_SIZE
  {
  }

  lemma SetItemCovers<X>(s: Slab<seq<X>>, live: multiset<Ptr>, p: Ptr, page: seq<X>)
    requires PagesFull(s) && Covers(s, live) && InUse(s, p) && |page| == PAGE_SIZE
    ensures PagesFull(SetItem(s, p, page)) && Covers(SetItem(s, p, page), live)
  {
  }

  lemma NodeSound<T>(dir: Slab<seq<Ptr>>, below: Levels<T>, live: multiset<Ptr>)
    requires WellFormed(dir) && PagesFull(dir) && Covers(dir, live) && Sound(below, Entries(dir.cells))
    ensures Sound(Node(dir, below), live)
  {
  }

  lemma WriteEntryReads<T>(dir: Slab<seq<Ptr>>, below: Levels<T>, below': Levels<T>, live: multiset<Ptr>,
                           p: Ptr, e: nat, c': Ptr, off: nat, buf: seq<T>)
    requires Covers(dir, live) && p in live && dir.cells[p].refs == 1 && e < |dir.cells[p].item|
    requires off + |buf| <= Size(below)
    requires Wrote(below, below', Entries(dir.cells), dir.cells[p].item[e], c', off, buf)
    ensures var a, b := Node(dir, below), Node(SetItem(dir, p, dir.cells[p].item[e := c']), below');
      var at := Start(below, e) + off;
      && SameReads(a, b, live - multiset{p})
      && forall i: nat :: At(b, p, i) == if at <= i < at + |buf| then Some(buf[i - at]) else At(a, p, i)
  {
    var a, b := Node(dir, below), Node(SetItem(dir, p, dir.cells[p].item[e := c']), below');
    SoleOwner(dir, live, p);
    forall q, i: nat | q in live - multiset{p} ensures At(b, q, i) == At(a, q, i) {
      OtherPageReads(dir, below, below', p, e, c', q, i);
    }
    var at := Start(below, e) + off;
    forall i: nat ensures At(b, p, i) == if at <= i < at + |buf| then Some(buf[i - at]) else At(a, p, i) {
      OwnPageReads(dir, below, below', p, e, c', off, buf, i);
    }
  }

  lemma SetEntry(dir: Slab<seq<Ptr>>, p: Ptr, e: nat, c': Ptr)
    requires InUse(dir, p) && e < |dir.cells[p].item|
    ensures var dir' := SetItem(dir, p, dir.cells[p].item[e := c']);
      Entries(dir'.cells) == Entries(dir.cells) - multiset{dir.cells[p].item[e]} + multiset{c'}
  {
    var page := dir.cells[p].item;
    var dir' := SetItem(dir, p, page[e := c']);
    EntriesUpdate(dir.cells, p, dir'.cells[p]);
    EntryIsLive(dir, p, e);
    Exchange(Entries(dir.cells), multiset(page), multiset(page[e := c']), Entries(dir'.cells), page[e], c');
  }

  lemma Exchange(all: multiset<Ptr>, part: multiset<Ptr>, part': multiset<Ptr>, all': multiset<Ptr>, c: Ptr, c': Ptr)
    requires all' + part == all + part'
    requires c in part && part' == part - multiset{c} + multiset{c'}
    requires c in all
    ensures all' == all - multiset{c} + multiset{c'}
  {
    forall x ensures all'[x] == (all - multiset{c} + multiset{c'})[x] {
      assert (all' + part)[x] == (all + part')[x];
    }
  }

  lemma OtherPageReads<T>(dir: Slab<seq<Ptr>>, below: Levels<T>, below': Levels<T>, p: Ptr, e: nat, c': Ptr, q: Ptr,
                          i: nat)
    requires InUse(dir, p) && InUse(dir, q) && q != p && e < |dir.cells[p].item|
    requires Height(below') == Height(below)
    requires SameReads(below, below', Entries(dir.cells) - multiset{dir.cells[p].item[e]})
    ensures At(Node(SetItem(dir, p, dir.cells[p].item[e := c']), below'), q, i) == At(Node(dir, below), q, i)
  {
    forall c | c in dir.cells[q].item ensures c in Entries(dir.cells) - multiset{dir.cells[p].item[e]} {
      OtherPageIsLive(dir, p, e, q, c);
    }
    SameThrough(below, below', dir.cells[q].item, i);
  }

  lemma OwnPageReads<T>(dir: Slab<seq<Ptr>>, below: Levels<T>, below': Levels<T>, p: Ptr, e: nat, c': Ptr, off: nat,
                        buf: seq<T>, i: nat)
    requires InUse(dir, p) && e < |dir.cells[p].item| && off + |buf| <= Size(below)
    requires Height(below') == Height(below)
    requires SameReads(below, below', Entries(dir.cells) - multiset{dir.cells[p].item[e]})
    requires forall j: nat ::
      At(below', c', j) == if off <= j < off + |buf| then Some(buf[j - off]) else At(below, dir.cells[p].item[e], j)
    ensures var at := Start(below, e) + off;
      At(Node(SetItem(dir, p, dir.cells[p].item[e := c']), below'), p, i)
      == if at <= i < at + |buf| then Some(buf[i - at]) else At(Node(dir, below), p, i)
  {
    var page := dir.cells[p].item;
    forall k | 0 <= k < |page| && k != e ensures page[k] in Entries(dir.cells) - multiset{page[e]} {
      OtherEntryIsLive(dir, p, e, k);
    }
    ReplaceThrough(below, below', page, e, c', off, buf, i);
  }

  lemma OtherPageIsLive(dir: Slab<seq<Ptr>>, p: Ptr, e: nat, q: Ptr, c: Ptr)
    requires InUse(dir, p) && InUse(dir, q) && q != p && e < |dir.cells[p].item| && c in dir.cells[q].item
    ensures c in Entries(dir.cells) - multiset{dir.cells[p].item[e]}
  {
    EntriesElsewhere(dir.cells, p, q);
    assert dir.cells[p].item[e] in CellPtrs(dir.cells[p]);
    assert c in CellPtrs(dir.cells[q]);
  }

  lemma OtherEntryIsLive(dir: Slab<seq<Ptr>>, p: Ptr, e: nat, k: nat)
    requires InUse(dir, p) && e < |dir.cells[p].item| && k < |dir.cells[p].item| && k != e
    ensures dir.cells[p].item[k] in Entries(dir.cells) - multiset{dir.cells[p].item[e]}
  {
    var page := dir.cells[p].item;
    EntriesContain(dir.cells, p);
    if page[k] == page[e] {
      TwiceInPage(page, e, k);
    } else {
      assert page[k] in multiset(page);
    }
  }

  lemma TwiceInPage(page: seq<Ptr>, e: nat, k: nat)
    requires e < |page| && k < |page| && k != e && page[k] == page[e]
    ensures multiset(page)[page[k]] >= 2
  {
    var hole := page[..e] + page[e + 1..];
    assert page == page[..e] + [page[e]] + page[e + 1..];
    assert hole[if k < e then k else k - 1] == page[k];
    assert page[k] in multiset(hole);
    assert multiset(page) == multiset(hole) + multiset{page[e]};
  }
}
