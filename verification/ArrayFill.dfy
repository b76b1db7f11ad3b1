/** New trees: all positions of a new top-level page read the same value, and one page per level is
    enough, since every entry of a page points to the same page below. */
module ArrayFill {
  import opened Options
  import opened Slabs
  import opened Tables
  import opened RadixTree
  import opened Rooms
  import opened Balances
  import opened Sharings
  import opened ArrayStorages
  import opened ArrayPaths
  import opened ArrayDrops

  /** Every position of the tree named by `p` reads `value`. */
  ghost predicate Filled<T>(lv: Levels<T>, p: Ptr, value: T) {
    forall i: nat :: i < Size(lv) ==> At(lv, p, i) == Some(value)
  }

  function Copies(c: Ptr, n: nat): (r: seq<Ptr>)
    ensures |r| == n && forall i :: 0 <= i < n ==> r[i] == c
  {
    seq(n, i => c)
  }

  lemma {:induction false} FilledThrough<T>(lv: Levels<T>, c: Ptr, value: T, n: nat, i: nat)
    requires Filled(lv, c, value) && i < Start(lv, n)
    ensures Through(lv, Copies(c, n), i) == Some(value)
  {
    if n > 0 && i >= Size(lv) {
      FilledThrough(lv, c, value, n - 1, i - Size(lv));
      assert Copies(c, n)[1..] == Copies(c, n - 1);
    }
  }

  // ---------- A page on top of a filled tree ----------

  lemma AddItemCovers<X>(s: Slab<X>, live: multiset<Ptr>, item: X)
    requires WellFormed(s) && Covers(s, live)
    ensures s.nextEmpty <= |s.cells|
    ensures s.nextEmpty < |s.cells| ==> s.cells[s.nextEmpty].Empty?
    ensures var (t, p) := AddItem(s, item);
      && WellFormed(t) && Covers(t, live + multiset{p}) && InUse(t, p) && t.cells[p].item == item && p !in live
      && forall q: Ptr :: q != p ==> ItemAt(t, q) == ItemAt(s, q)
  {
    AddItemKeeps(s, item);
  }

  lemma AddItemFull<X>(s: Slab<seq<X>>, item: seq<X>)
    requires WellFormed(s) && PagesFull(s) && |item| == PAGE_SIZE
    ensures s.nextEmpty <= |s.cells|
    ensures s.nextEmpty < |s.cells| ==> s.cells[s.nextEmpty].Empty?
    ensures PagesFull(AddItem(s, item).0)
  {
  }

  lemma AddLeaf<T>(data: Slab<seq<T>>, live: multiset<Ptr>, page: seq<T>, value: T)
    requires Sound(Leaf(data), live) && |page| == PAGE_SIZE && forall i :: 0 <= i < PAGE_SIZE ==> page[i] == value
    ensures data.nextEmpty <= |data.cells|
    ensures data.nextEmpty < |data.cells| ==> data.cells[data.nextEmpty].Empty?
    ensures var (t, p) := AddItem(data, page);
      Sound(Leaf(t), live + multiset{p}) && SameReads(Leaf(data), Leaf(t), live) && Filled(Leaf(t), p, value)
  {
    AddItemCovers(data, live, page);
    AddItemFull(data, page);
    var (t, p) := AddItem(data, page);
    hide WellFormed, AddItem;
    forall q, i: nat | q in live ensures At(Leaf(t), q, i) == At(Leaf(data), q, i) {
      assert ItemAt(t, q) == ItemAt(data, q);
    }
  }

  /** `below0` is what the tables below held when the tree on top of them was last looked at. */
  lemma AddNode<T>(dir: Slab<seq<Ptr>>, below0: Levels<T>, below: Levels<T>, live: multiset<Ptr>, c: Ptr, value: T)
    requires WellFormed(dir) && PagesFull(dir) && Covers(dir, live)
    requires Height(below) == Height(below0) && SameReads(below0, below, Entries(dir.cells))
    requires Sound(below, Entries(dir.cells) + multiset(Copies(c, PAGE_SIZE))) && Filled(below, c, value)
    ensures dir.nextEmpty <= |dir.cells|
    ensures dir.nextEmpty < |dir.cells| ==> dir.cells[dir.nextEmpty].Empty?
    ensures var (t, p) := AddItem(dir, Copies(c, PAGE_SIZE));
      && Sound(Node(t, below), live + multiset{p})
      && SameReads(Node(dir, below0), Node(t, below), live)
      && Filled(Node(t, below), p, value)
  {
    hide AddItem, Entries, At;
    var page := Copies(c, PAGE_SIZE);
    AddItemCovers(dir, live, page);
    AddItemFull(dir, page);
    AddItemEntries(dir, page);
    var (t, p) := AddItem(dir, page);
    assert Sound(Node(t, below), live + multiset{p});
    AddNodeReads(dir, t, below0, below, live, p);
    AddNodeFilled(t, below, p, c, value);
  }

  lemma AddNodeReads<T>(dir: Slab<seq<Ptr>>, t: Slab<seq<Ptr>>, below0: Levels<T>, below: Levels<T>,
                        live: multiset<Ptr>, p: Ptr)
    requires Covers(dir, live) && p !in live
    requires forall q: Ptr :: q != p ==> ItemAt(t, q) == ItemAt(dir, q)
    requires Height(below) == Height(below0) && SameReads(below0, below, Entries(dir.cells))
    ensures SameReads(Node(dir, below0), Node(t, below), live)
  {
    hide Entries;
    forall q, i: nat | q in live ensures At(Node(t, below), q, i) == At(Node(dir, below0), q, i) {
      assert ItemAt(t, q) == ItemAt(dir, q);
      var page := dir.cells[q].item;
      forall c | c in page ensures c in Entries(dir.cells) {
        var e :| 0 <= e < |page| && page[e] == c;
        EntryIsLive(dir, q, e);
      }
      SameThrough(below0, below, page, i);
    }
  }

  lemma AddNodeFilled<T>(t: Slab<seq<Ptr>>, below: Levels<T>, p: Ptr, c: Ptr, value: T)
    requires InUse(t, p) && t.cells[p].item == Copies(c, PAGE_SIZE) && Filled(below, c, value)
    ensures Filled(Node(t, below), p, value)
  {
    StartIsProduct(below, PAGE_SIZE);
    forall i: nat | i < Size(Node(t, below)) ensures At(Node(t, below), p, i) == Some(value) {
      FilledThrough(below, c, value, PAGE_SIZE, i);
    }
  }

  // ---------- Giving up a reference that is not the last ----------

  function UnrefTop<T>(lv: Levels<T>, p: Ptr): Levels<T>
    requires TopInUse(lv, p) && TopRefs(lv, p) > 1
  {
    match lv
    case Leaf(data) => Leaf(RemoveRef(data, p))
    case Node(dir, below) => Node(RemoveRef(dir, p), below)
  }

  lemma UnrefCovers<X>(s: Slab<X>, live: multiset<Ptr>, p: Ptr)
    requires WellFormed(s) && Covers(s, live + multiset{p}) && p in live
    ensures InUse(s, p) && s.cells[p].refs > 1
    ensures WellFormed(RemoveRef(s, p)) && Covers(RemoveRef(s, p), live)
    ensures forall q: Ptr :: ItemAt(RemoveRef(s, p), q) == ItemAt(s, q)
  {
    assert p in live + multiset{p} && (live + multiset{p})[p] >= 2;
    RemoveRefKeeps(s, p);
    hide WellFormed;
    forall q | q in live ensures InUse(RemoveRef(s, p), q) && live[q] <= RemoveRef(s, p).cells[q].refs {
      assert q in live + multiset{p} && (live + multiset{p})[q] >= live[q];
    }
  }

  lemma UnrefTopKeeps<T>(lv: Levels<T>, live: multiset<Ptr>, p: Ptr)
    requires Sound(lv, live + multiset{p}) && p in live
    ensures TopInUse(lv, p) && TopRefs(lv, p) > 1
    ensures Sound(UnrefTop(lv, p), live) && Unchanged(lv, UnrefTop(lv, p))
  {
    hide Sound, At, UnrefTop;
    UnrefTopSound(lv, live, p);
    UnrefTopHeight(lv, p);
    forall q: Ptr, i: nat ensures At(UnrefTop(lv, p), q, i) == At(lv, q, i) {
      UnrefTopAt(lv, p, q, i);
    }
  }

  lemma UnrefTopSound<T>(lv: Levels<T>, live: multiset<Ptr>, p: Ptr)
    requires Sound(lv, live + multiset{p}) && p in live
    ensures TopInUse(lv, p) && TopRefs(lv, p) > 1
    ensures Sound(UnrefTop(lv, p), live)
  {
    hide WellFormed, Covers, PagesFull, Entries, RemoveRef;
    match lv
    case Leaf(data) =>
      UnrefCovers(data, live, p);
      UnrefPages(data, p);
    case Node(dir, below) =>
      NodeSoundParts(dir, below, live + multiset{p});
      UnrefCovers(dir, live, p);
      UnrefPages(dir, p);
      UnrefEntries(dir, p);
      NodeSound(RemoveRef(dir, p), below, live);
  }

  lemma UnrefPages<X>(s: Slab<seq<X>>, p: Ptr)
    requires PagesFull(s) && InUse(s, p) && s.cells[p].refs > 1
    ensures PagesFull(RemoveRef(s, p))
  {
  }

  lemma UnrefEntries(s: Slab<seq<Ptr>>, p: Ptr)
    requires InUse(s, p) && s.cells[p].refs > 1
    ensures Entries(RemoveRef(s, p).cells) == Entries(s.cells)
  {
    SameCellPtrs(s.cells, p, RemoveRef(s, p).cells[p]);
  }

  lemma UnrefTopHeight<T>(lv: Levels<T>, p: Ptr)
    requires TopInUse(lv, p) && TopRefs(lv, p) > 1
    ensures Height(UnrefTop(lv, p)) == Height(lv)
    ensures forall q: Ptr :: TopInUse(UnrefTop(lv, p), q) == TopInUse(lv, q)
  {
  }

  lemma UnrefTopAt<T>(lv: Levels<T>, p: Ptr, q: Ptr, i: nat)
    requires TopInUse(lv, p) && TopRefs(lv, p) > 1
    ensures At(UnrefTop(lv, p), q, i) == At(lv, q, i)
  {
  }

  lemma UnrefTopGrew<T>(lv: Levels<T>, p: Ptr)
    requires TopInUse(lv, p) && TopRefs(lv, p) > 1
    ensures TopGrew(lv, UnrefTop(lv, p), 0, 0) && Balance(UnrefTop(lv, p)) == Balance(lv) - 1
  {
    hide SlabGrew, Entries, RefSum;
    match lv
    case Leaf(data) =>
      RemoveRefGrew(data, p);
      RemoveRefSum(data, p);
    case Node(dir, below) =>
      RemoveRefGrew(dir, p);
      RemoveRefSum(dir, p);
      UnrefEntries(dir, p);
  }

  /** Drops a pointer to the topmost table that is not the last one to its page. */
  method DropSharedPtr<T>(data: Table<seq<T>>, dirs: seq<Table<seq<Ptr>>>, p: Ptr, ghost live: multiset<Ptr>)
    requires Separate(data, dirs) && AllValid(data, dirs)
    requires Sound(LevelsOf(data, dirs), live + multiset{p}) && p in live
    modifies data, dirs
    ensures AllValid(data, dirs)
    ensures Unchanged(old(LevelsOf(data, dirs)), LevelsOf(data, dirs))
    ensures Sound(LevelsOf(data, dirs), live)
    ensures TopGrew(old(LevelsOf(data, dirs)), LevelsOf(data, dirs), 0, 0)
    ensures Balance(LevelsOf(data, dirs)) == old(Balance(LevelsOf(data, dirs))) - 1
  {
    hide Sound, WellFormed, At, Unchanged, TopGrew, Balance;
    UnrefTopKeeps(LevelsOf(data, dirs), live, p);
    UnrefTopGrew(LevelsOf(data, dirs), p);
    if dirs == [] {
      data.DropTablePtr(p);
    } else {
      dirs[0].DropTablePtr(p);
      assert LevelsOf(data, dirs[1..]) == old(LevelsOf(data, dirs[1..]));
    }
  }

  // ---------- A new top-level page ----------

  /** Puts one page above a filled tree: 64 pointers to the tree are made, and the original one is
      given up. `below0` is what the tables below held before the tree was added. */
  method AddPageAbove<T>(dir: Table<seq<Ptr>>, data: Table<seq<T>>, next: seq<Table<seq<Ptr>>>, c: Ptr, ghost value: T,
                         ghost below0: Levels<T>, ghost live: multiset<Ptr>) returns (p: Outcome<Ptr>)
    requires OnTop(dir, data, next) && Sound(Node(dir.Value(), below0), live)
    requires
      && Height(LevelsOf(data, next)) == Height(below0)
      && SameReads(below0, LevelsOf(data, next), Entries(dir.Value().cells))
    requires
      && Sound(LevelsOf(data, next), Entries(dir.Value().cells) + multiset{c}) && Filled(LevelsOf(data, next), c, value)
    modifies dir, data, next
    ensures OnTop(dir, data, next) && (p.Overflow? ==> OutOfRoom(TreeOf(dir, data, next)))
    ensures p.Done? <==>
      HasSlot(old(dir.Value())) && CloneFits(old(LevelsOf(data, next)), multiset(Copies(c, PAGE_SIZE)))
    ensures p.Done? ==>
      && SlabGrew(old(dir.Value()), dir.Value(), 1, 0)
      && TopGrew(old(LevelsOf(data, next)), LevelsOf(data, next), 0, PAGE_SIZE)
      && Balance(TreeOf(dir, data, next)) == old(Balance(TreeOf(dir, data, next)))
    ensures p.Done? ==>
      && Sound(TreeOf(dir, data, next), live + multiset{p.value})
      && SameReads(Node(old(dir.Value()), below0), TreeOf(dir, data, next), live)
      && Filled(TreeOf(dir, data, next), p.value, value)
  {
    hide Sound, SameReads, Filled, LevelsOf, Entries, WellFormed, Height, AllValid, Separate, Unchanged, Covers,
         PagesFull,
         AddItem, TopGrew, SlabGrew, Cloned, CloneFits, Most, HasSlot, RefSum;
    ghost var top, below := dir.Value(), LevelsOf(data, next);
    ghost var kept := Entries(top.cells);
    var page := Copies(c, PAGE_SIZE);
    FilledInUse(below, kept + multiset{c}, c, page);
    var _ :- CloneAll(data, next, page, kept + multiset{c});
    ghost var below1 := LevelsOf(data, next);
    assert kept + multiset{c} + multiset(page) == kept + multiset(page) + multiset{c};
    assert c in multiset(page) by { assert page[0] == c; }
    DropSharedPtr(data, next, c, kept + multiset(page));
    ghost var below2 := LevelsOf(data, next);
    UnchangedTrans(below, below1, below2);
    FilledStays(below0, below, below2, kept, c, value);
    CopiesGrew(below, below2, page);
    AddItemGrew(top, page);
    NodeSoundParts(top, below0, live);
    ClonedBalance(below, multiset(page));
    AddNodeBalance(top, below2, page);
    AddNode(top, below0, below2, live, c, value);
    p := dir.AddItem(page);
    assert LevelsOf(data, next) == below2;
  }

  lemma CopiesGrew<T>(a: Levels<T>, b: Levels<T>, page: seq<Ptr>)
    requires |page| == PAGE_SIZE && TopGrew(Cloned(a, multiset(page)), b, 0, 0)
    ensures TopGrew(a, b, 0, PAGE_SIZE)
  {
    ClonedTopGrew(a, multiset(page), PAGE_SIZE);
  }

  lemma FilledInUse<T>(lv: Levels<T>, live: multiset<Ptr>, c: Ptr, page: seq<Ptr>)
    requires Sound(lv, live) && c in live && forall i :: 0 <= i < |page| ==> page[i] == c
    ensures forall p :: p in page ==> TopInUse(lv, p)
  {
  }

  lemma FilledStays<T>(a: Levels<T>, b: Levels<T>, c: Levels<T>, live: multiset<Ptr>, p: Ptr, value: T)
    requires Height(a) == Height(b) && SameReads(a, b, live) && Filled(b, p, value) && Unchanged(b, c)
    ensures Height(c) == Height(a) && SameReads(a, c, live) && Filled(c, p, value)
  {
    hide At;
    SizeFromHeight(b, c);
    forall q, i: nat | q in live ensures At(c, q, i) == At(a, q, i) {
      assert At(c, q, i) == At(b, q, i);
    }
    forall i: nat | i < Size(c) ensures At(c, p, i) == Some(value) {
      assert At(c, p, i) == At(b, p, i);
    }
  }

  lemma NodeSoundParts<T>(dir: Slab<seq<Ptr>>, below: Levels<T>, live: multiset<Ptr>)
    requires Sound(Node(dir, below), live)
    ensures WellFormed(dir) && PagesFull(dir) && Covers(dir, live) && Sound(below, Entries(dir.cells))
  {
  }

  /** Adds a top-level page all of whose positions read `value`, building it from the data page up. */
  method AddTopLevelPage<T>(data: Table<seq<T>>, dirs: seq<Table<seq<Ptr>>>, value: T,
                            ghost live: multiset<Ptr>) returns (p: Outcome<Ptr>)
    requires Separate(data, dirs) && AllValid(data, dirs)
    requires Sound(LevelsOf(data, dirs), live)
    modifies data, dirs
    ensures AllValid(data, dirs) && (p.Overflow? ==> OutOfRoom(LevelsOf(data, dirs)))
    ensures old(PagesFit(LevelsOf(data, dirs), 1)) ==> p.Done?
    ensures p.Done? ==>
      && PagesGrew(old(LevelsOf(data, dirs)), LevelsOf(data, dirs), 1)
      && Balance(LevelsOf(data, dirs)) == old(Balance(LevelsOf(data, dirs))) + 1
    ensures p.Done? ==>
      && Sound(LevelsOf(data, dirs), live + multiset{p.value})
      && SameReads(old(LevelsOf(data, dirs)), LevelsOf(data, dirs), live)
      && Filled(LevelsOf(data, dirs), p.value, value)
  {
    hide Sound, SameReads, Filled, LevelsOf, Entries, WellFormed, Height, Build, LiveAt, AddItem, At, Added, OutOfRoom,
         PagesFit, PagesGrew, PageEach, Balance;
    ghost var slabs, pages := Values(dirs), data.Value();
    var k := |dirs|;
    LevelsOfBuild(data, dirs);
    var page := seq(PAGE_SIZE, i => value);
    AddedLeaf(slabs, pages, page, live, value);
    LeafEach(slabs, pages, page, live);
    var added := data.AddItem(page);
    SeparateData(data, dirs, slabs);
    if added.Overflow? {
      ExhaustedData(data, dirs);
      return Overflow;
    }
    var top := added.value;
    while k > 0
      invariant 0 <= k <= |dirs|
      invariant Raised(data, dirs, k, slabs, pages, live, top, value)
      invariant PageEach(Build(slabs[k..], pages), LevelsOf(data, dirs[k..]))
      invariant Balance(LevelsOf(data, dirs[k..])) == Balance(Build(slabs[k..], pages)) + 1
    {
      k := k - 1;
      top :- RaisePage(data, dirs, k, top, value, slabs, pages, live);
    }
    assert dirs[0..] == dirs && slabs[0..] == slabs;
    AddedAll(slabs, pages, LevelsOf(data, dirs), live, top, value);
    PageEachGrew(Build(slabs, pages), LevelsOf(data, dirs));
    p := Done(top);
  }

  lemma ExhaustedData<T>(data: Table<seq<T>>, dirs: seq<Table<seq<Ptr>>>)
    requires AllValid(data, dirs) && !HasSlot(data.Value())
    ensures OutOfRoom(LevelsOf(data, dirs))
  {
  }

  /** The tables from depth `k` on have the filled tree named by `p`; those above are as before. */
  ghost predicate Raised<T>(data: Table<seq<T>>, dirs: seq<Table<seq<Ptr>>>, k: nat, slabs: seq<Slab<seq<Ptr>>>,
                            pages: Slab<seq<T>>, live: multiset<Ptr>, p: Ptr, value: T)
    requires k <= |dirs| == |slabs|
    reads data, dirs
  {
    && AllValid(data, dirs) && (forall j :: 0 <= j < k ==> dirs[j].Value() == slabs[j])
    && AllValid(data, dirs[k..])
    && Added(Build(slabs[k..], pages), LevelsOf(data, dirs[k..]), LiveAt(slabs, live, k), p, value)
  }

  /** One turn: from the filled tree named by `p` below depth `k` to one at depth `k`. */
  method RaisePage<T>(data: Table<seq<T>>, dirs: seq<Table<seq<Ptr>>>, k: nat, p: Ptr, ghost value: T,
                      ghost slabs: seq<Slab<seq<Ptr>>>, ghost pages: Slab<seq<T>>,
                      ghost live: multiset<Ptr>) returns (q: Outcome<Ptr>)
    requires Separate(data, dirs) && k < |dirs| == |slabs|
    requires Raised(data, dirs, k + 1, slabs, pages, live, p, value)
    requires Sound(Build(slabs, pages), live)
    requires PageEach(Build(slabs[k + 1..], pages), LevelsOf(data, dirs[k + 1..]))
    requires Balance(LevelsOf(data, dirs[k + 1..])) == Balance(Build(slabs[k + 1..], pages)) + 1
    modifies data, dirs
    ensures AllValid(data, dirs) && (q.Overflow? ==> OutOfRoom(LevelsOf(data, dirs)))
    ensures PagesFit(Build(slabs, pages), 1) ==> q.Done?
    ensures q.Done? ==> Raised(data, dirs, k, slabs, pages, live, q.value, value)
    ensures q.Done? ==>
      && PageEach(Build(slabs[k..], pages), LevelsOf(data, dirs[k..]))
      && Balance(LevelsOf(data, dirs[k..])) == Balance(Build(slabs[k..], pages)) + 1
  {
    hide Sound, SameReads, Filled, LevelsOf, Entries, WellFormed, Height, Build, LiveAt, AddItem, At, Added, Separate,
         OutOfRoom, PagesFit, PagesGrew, PageEach, TopGrew, SlabGrew, CloneFits, HasSlot, Balance;
    SeparateAt(data, dirs, k);
    ghost var below0 := Build(slabs[k + 1..], pages);
    ghost var below := LevelsOf(data, dirs[k + 1..]);
    RaiseFits(slabs, pages, below, live, k, Copies(p, PAGE_SIZE));
    AddedParts(slabs, pages, LevelsOf(data, dirs[k + 1..]), live, p, value, k);
    OnTopOf(slabs[k], below0, below);
    q := AddPageAbove(dirs[k], data, dirs[k + 1..], p, value, below0, LiveAt(slabs, live, k));
    AllValidAgain(data, dirs, k, slabs);
    if q.Overflow? {
      LevelsOfSub(data, dirs, k);
      OutOfRoomBelow(LevelsOf(data, dirs), k);
    } else {
      PageEachShared(below0, below, LevelsOf(data, dirs[k + 1..]));
      NodeEach(slabs[k], below0, dirs[k].Value(), LevelsOf(data, dirs[k + 1..]));
      AddedJoin(Node(slabs[k], below0), LevelsOf(data, dirs[k..]), LiveAt(slabs, live, k), q.value, value);
    }
  }

  lemma OnTopOf<T>(dir: Slab<seq<Ptr>>, a: Levels<T>, b: Levels<T>)
    ensures Balance(Node(dir, b)) - Balance(Node(dir, a)) == Balance(b) - Balance(a)
  {
  }

  lemma NodeEach<T>(dir: Slab<seq<Ptr>>, below: Levels<T>, dir': Slab<seq<Ptr>>, below': Levels<T>)
    requires SlabGrew(dir, dir', 1, 0) && PagesGrew(below, below', 1)
    ensures PageEach(Node(dir, below), Node(dir', below'))
  {
  }

  lemma LeafEach<T>(slabs: seq<Slab<seq<Ptr>>>, pages: Slab<seq<T>>, page: seq<T>, live: multiset<Ptr>)
    requires Sound(Build(slabs, pages), live)
    ensures pages.nextEmpty <= |pages.cells|
    ensures pages.nextEmpty < |pages.cells| ==> pages.cells[pages.nextEmpty].Empty?
    ensures PageEach(Build(slabs[|slabs|..], pages), Leaf(AddItem(pages, page).0))
    ensures Balance<T>(Leaf(AddItem(pages, page).0)) == Balance(Build(slabs[|slabs|..], pages)) + 1
    ensures PagesFit(Build(slabs, pages), 1) ==> HasSlot(pages)
  {
    hide Sound, AddItem, SlabGrew, SlabFits, WellFormed, RefSum;
    BuildSound(slabs, pages, live, |slabs|);
    assert slabs[|slabs|..] == [];
    LeafIsSound(pages, LiveAt(slabs, live, |slabs|));
    AddItemGrew(pages, page);
    AddItemSum(pages, page);
    BuildSub(slabs, pages, |slabs|);
    PagesFitSub(Build(slabs, pages), |slabs|, 1);
    if PagesFit(Build(slabs, pages), 1) {
      FitsHasSlot(pages, 1, PAGE_SIZE);
    }
  }

  lemma LeafIsSound<T>(data: Slab<seq<T>>, live: multiset<Ptr>)
    requires Sound(Leaf(data), live)
    ensures WellFormed(data)
  {
  }

  lemma RaiseFits<T>(slabs: seq<Slab<seq<Ptr>>>, pages: Slab<seq<T>>, below: Levels<T>, live: multiset<Ptr>, k: nat,
                     page: seq<Ptr>)
    requires k < |slabs| && Sound(Build(slabs, pages), live) && |page| == PAGE_SIZE
    requires PageEach(Build(slabs[k + 1..], pages), below)
    ensures PagesFit(Build(slabs, pages), 1) ==> HasSlot(slabs[k]) && CloneFits(below, multiset(page))
  {
    hide Sound, PageEach, CloneFits, HasSlot, WellFormed, SlabFits, Entries;
    BuildSound(slabs, pages, live, k);
    assert slabs[k..][1..] == slabs[k + 1..];
    var below0 := Build(slabs[k + 1..], pages);
    NodeSoundParts(slabs[k], below0, LiveAt(slabs, live, k));
    BuildSub(slabs, pages, k);
    PagesFitSub(Build(slabs, pages), k, 1);
    PagesFitBelow(slabs[k], below0, 1);
    PageEachFits(below0, below, page);
    if PagesFit(Build(slabs, pages), 1) {
      FitsHasSlot(slabs[k], 1, PAGE_SIZE);
    }
  }

  /** `now` is `before` with a filled tree named `p` added. */
  ghost predicate Added<T>(before: Levels<T>, now: Levels<T>, live: multiset<Ptr>, p: Ptr, value: T) {
    Height(now) == Height(before) && Sound(now, live + multiset{p}) && SameReads(before, now, live)
      && Filled(now, p, value)
  }

  lemma AddedJoin<T>(before: Levels<T>, now: Levels<T>, live: multiset<Ptr>, p: Ptr, value: T)
    requires Height(now) == Height(before) && Sound(now, live + multiset{p}) && SameReads(before, now, live)
      && Filled(now, p, value)
    ensures Added(before, now, live, p, value)
  {
  }

  lemma AddedAll<T>(slabs: seq<Slab<seq<Ptr>>>, pages: Slab<seq<T>>, now: Levels<T>, live: multiset<Ptr>, p: Ptr,
                    value: T)
    requires Added(Build(slabs, pages), now, LiveAt(slabs, live, 0), p, value)
    ensures Sound(now, live + multiset{p}) && SameReads(Build(slabs, pages), now, live) && Filled(now, p, value)
  {
  }

  /** Changing the data table leaves the page tables alone. */
  lemma SeparateData<T>(data: Table<seq<T>>, dirs: seq<Table<seq<Ptr>>>, slabs: seq<Slab<seq<Ptr>>>)
    requires data.Valid() && |slabs| == |dirs|
    requires forall i :: 0 <= i < |dirs| ==> dirs[i].Valid() && dirs[i].Value() == slabs[i]
    ensures AllValid(data, dirs) && AllValid(data, dirs[|dirs|..])
    ensures LevelsOf(data, dirs[|dirs|..]) == Leaf(data.Value())
  {
  }

  lemma AddedLeaf<T>(slabs: seq<Slab<seq<Ptr>>>, pages: Slab<seq<T>>, page: seq<T>, live: multiset<Ptr>, value: T)
    requires Sound(Build(slabs, pages), live)
    requires |page| == PAGE_SIZE && forall i :: 0 <= i < PAGE_SIZE ==> page[i] == value
    ensures pages.nextEmpty <= |pages.cells|
    ensures pages.nextEmpty < |pages.cells| ==> pages.cells[pages.nextEmpty].Empty?
    ensures var (t, p) := AddItem(pages, page);
      Added(Build(slabs[|slabs|..], pages), Leaf(t), LiveAt(slabs, live, |slabs|), p, value)
  {
    hide Sound, SameReads, Filled, At, WellFormed, AddItem, Entries, LiveAt;
    BuildSound(slabs, pages, live, |slabs|);
    assert slabs[|slabs|..] == [];
    AddLeaf(pages, LiveAt(slabs, live, |slabs|), page, value);
  }

  lemma AddedParts<T>(slabs: seq<Slab<seq<Ptr>>>, pages: Slab<seq<T>>, below: Levels<T>, live: multiset<Ptr>, p: Ptr,
                      value: T, k: nat)
    requires k < |slabs| && Sound(Build(slabs, pages), live)
    requires Added(Build(slabs[k + 1..], pages), below, LiveAt(slabs, live, k + 1), p, value)
    ensures var before := Build(slabs[k + 1..], pages);
      && Build(slabs[k..], pages) == Node(slabs[k], before)
      && Sound(Node(slabs[k], before), LiveAt(slabs, live, k))
      && Height(below) == Height(before) && SameReads(before, below, Entries(slabs[k].cells))
      && Sound(below, Entries(slabs[k].cells) + multiset{p}) && Filled(below, p, value)
  {
    hide Sound, SameReads, Filled, Entries;
    BuildSound(slabs, pages, live, k);
    assert slabs[k..][1..] == slabs[k + 1..];
  }
}
