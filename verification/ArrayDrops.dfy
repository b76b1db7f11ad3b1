/** Dropping the pointer to a tree. A worklist goes down level by level: every page that loses its
    last reference is freed, and each pointer it held is dropped in turn. */
module ArrayDrops {
  import opened Options
  import opened Slabs
  import opened Tables
  import opened RadixTree
  import opened Rooms
  import opened Balances
  import opened ArrayStorages
  import opened ArrayPaths

  // ---------- One table ----------

  /** The pointers `gone` were dropped from slab `s`, leaving `t`: no slot was touched but for its
      count, which went down by one for each pointer, and a slot was freed only if `gone` held its
      last references. */
  ghost predicate SlabReleased<X>(s: Slab<X>, t: Slab<X>, live: multiset<Ptr>, gone: multiset<Ptr>) {
    && WellFormed(t) && Covers(t, live) && |t.cells| == |s.cells|
    && (forall p: Ptr :: InUse(t, p) ==>
          InUse(s, p) && t.cells[p].item == s.cells[p].item && t.cells[p].refs + gone[p] == s.cells[p].refs)
    && (forall p: Ptr :: InUse(s, p) && !InUse(t, p) ==> s.cells[p].refs == gone[p])
  }

  lemma SlabPop<X>(s: Slab<X>, live: multiset<Ptr>, p: Ptr)
    requires WellFormed(s) && Covers(s, live + multiset{p})
    ensures InUse(s, p) && s.cells[p].refs >= 1 && SlabReleased(s, RemoveRef(s, p), live, multiset{p})
  {
    assert p in live + multiset{p};
    assert (live + multiset{p})[p] == live[p] + 1;
    RemoveRefKeeps(s, p);
    hide WellFormed;
    forall q | q in live ensures InUse(RemoveRef(s, p), q) && live[q] <= RemoveRef(s, p).cells[q].refs {
      assert q in live + multiset{p} && (live + multiset{p})[q] >= live[q];
    }
  }

  lemma SlabReleasedTrans<X>(a: Slab<X>, b: Slab<X>, c: Slab<X>, live: multiset<Ptr>, gone: multiset<Ptr>,
                             more: multiset<Ptr>)
    requires SlabReleased(a, b, live + more, gone) && SlabReleased(b, c, live, more)
    ensures SlabReleased(a, c, live, gone + more)
  {
  }

  lemma SlabReleasedNone<X>(s: Slab<X>, live: multiset<Ptr>)
    requires WellFormed(s) && Covers(s, live)
    ensures SlabReleased(s, s, live, multiset{})
  {
  }

  function Flatten(pages: seq<seq<Ptr>>): seq<Ptr> {
    if pages == [] then [] else Flatten(pages[..|pages| - 1]) + pages[|pages| - 1]
  }

  lemma FlattenNone()
    ensures multiset(Flatten([])) == multiset{}
  {
  }

  lemma FlattenMore(pages: seq<seq<Ptr>>, page: seq<Ptr>)
    ensures multiset(Flatten(pages + [page])) == multiset(Flatten(pages)) + multiset(page)
  {
    assert (pages + [page])[..|pages|] == pages;
  }

  lemma PopEntries(s: Slab<seq<Ptr>>, p: Ptr)
    requires InUse(s, p) && s.cells[p].refs >= 1
    ensures Entries(s.cells) == Entries(RemoveRef(s, p).cells) + if s.cells[p].refs == 1 then multiset(s.cells[p].item)
      else multiset{}
  {
    var c := RemoveRef(s, p).cells[p];
    EntriesUpdate(s.cells, p, c);
    var x, y := Entries(s.cells), Entries(RemoveRef(s, p).cells);
    assert y + CellPtrs(s.cells[p]) == x + CellPtrs(c);
    if s.cells[p].refs > 1 {
      SameCellPtrs(s.cells, p, c);
    }
  }

  /** Drops `ptrs` one after the other, and gives back the pages that were freed. */
  method PopDirs(t: Table<seq<Ptr>>, ptrs: seq<Ptr>, ghost live: multiset<Ptr>) returns (freed: seq<seq<Ptr>>)
    requires t.Valid() && Covers(t.Value(), live + multiset(ptrs))
    modifies t
    ensures t.Valid()
    ensures SlabReleased(old(t.Value()), t.Value(), live, multiset(ptrs))
    ensures Entries(old(t.Value()).cells) == Entries(t.Value().cells) + multiset(Flatten(freed))
  {
    hide WellFormed, SlabReleased, Covers, Entries, RemoveRef, Flatten;
    ghost var s := t.Value();
    freed := [];
    var k := 0;
    PopStart(t, ptrs, live);
    FlattenNone();
    while k < |ptrs|
      invariant 0 <= k <= |ptrs|
      invariant t.Valid() && Covers(t.Value(), live + multiset(ptrs[k..]))
      invariant SlabReleased(s, t.Value(), live + multiset(ptrs[k..]), multiset(ptrs[..k]))
      invariant Entries(s.cells) == Entries(t.Value().cells) + multiset(Flatten(freed))
    {
      ghost var now := t.Value();
      Take(ptrs, k, live);
      SlabPop(now, live + multiset(ptrs[k + 1..]), ptrs[k]);
      PopEntries(now, ptrs[k]);
      var page := t.PopItem(ptrs[k]);
      SlabReleasedTrans(s, now, t.Value(), live + multiset(ptrs[k + 1..]), multiset(ptrs[..k]), multiset{ptrs[k]});
      ReleasedCovers(now, t.Value(), live + multiset(ptrs[k + 1..]), multiset{ptrs[k]});
      if page.Some? {
        FlattenMore(freed, page.value);
        freed := freed + [page.value];
      }
      k := k + 1;
    }
    assert ptrs[..k] == ptrs && live + multiset(ptrs[k..]) == live;
  }

  lemma PopStart<X>(t: Table<X>, ptrs: seq<Ptr>, live: multiset<Ptr>)
    requires t.Valid() && Covers(t.Value(), live + multiset(ptrs))
    ensures ptrs[0..] == ptrs && multiset(ptrs[..0]) == multiset{}
    ensures SlabReleased(t.Value(), t.Value(), live + multiset(ptrs), multiset{})
  {
  }

  lemma Take(ptrs: seq<Ptr>, k: nat, live: multiset<Ptr>)
    requires k < |ptrs|
    ensures live + multiset(ptrs[k..]) == live + multiset(ptrs[k + 1..]) + multiset{ptrs[k]}
    ensures multiset(ptrs[..k + 1]) == multiset(ptrs[..k]) + multiset{ptrs[k]}
  {
    assert ptrs[k..] == [ptrs[k]] + ptrs[k + 1..];
    assert ptrs[..k + 1] == ptrs[..k] + [ptrs[k]];
  }

  lemma ReleasedCovers<X>(s: Slab<X>, t: Slab<X>, live: multiset<Ptr>, gone: multiset<Ptr>)
    requires SlabReleased(s, t, live, gone)
    ensures Covers(t, live)
  {
  }

  method PopData<T>(t: Table<seq<T>>, ptrs: seq<Ptr>, ghost live: multiset<Ptr>)
    requires t.Valid() && Covers(t.Value(), live + multiset(ptrs))
    modifies t
    ensures t.Valid()
    ensures SlabReleased(old(t.Value()), t.Value(), live, multiset(ptrs))
  {
    hide WellFormed, SlabReleased, Covers, RemoveRef;
    ghost var s := t.Value();
    var k := 0;
    PopStart(t, ptrs, live);
    while k < |ptrs|
      invariant 0 <= k <= |ptrs|
      invariant t.Valid() && Covers(t.Value(), live + multiset(ptrs[k..]))
      invariant SlabReleased(s, t.Value(), live + multiset(ptrs[k..]), multiset(ptrs[..k]))
    {
      ghost var now := t.Value();
      Take(ptrs, k, live);
      SlabPop(now, live + multiset(ptrs[k + 1..]), ptrs[k]);
      var _ := t.PopItem(ptrs[k]);
      SlabReleasedTrans(s, now, t.Value(), live + multiset(ptrs[k + 1..]), multiset(ptrs[..k]), multiset{ptrs[k]});
      ReleasedCovers(now, t.Value(), live + multiset(ptrs[k + 1..]), multiset{ptrs[k]});
      k := k + 1;
    }
    assert ptrs[..k] == ptrs && live + multiset(ptrs[k..]) == live;
  }

  // ---------- All tables ----------

  /** The pointers `gone` to trees were dropped: the top table lost exactly those references, and the
      table below lost exactly the pointers of the pages that were freed, and so on down. */
  ghost predicate Released<T>(a: Levels<T>, b: Levels<T>, live: multiset<Ptr>, gone: multiset<Ptr>) {
    match (a, b)
    case (Leaf(data), Leaf(data')) => SlabReleased(data, data', live, gone)
    case (Node(dir, below), Node(dir', below')) =>
      && SlabReleased(dir, dir', live, gone)
      && Entries(dir'.cells) <= Entries(dir.cells)
      && Released(below, below', Entries(dir'.cells), Entries(dir.cells) - Entries(dir'.cells))
    case _ => false
  }

  lemma SlabReleasedFull<X>(s: Slab<seq<X>>, t: Slab<seq<X>>, live: multiset<Ptr>, gone: multiset<Ptr>)
    requires SlabReleased(s, t, live, gone) && PagesFull(s)
    ensures PagesFull(t)
  {
  }

  /** Whatever is still pointed to is neither freed nor changed. */
  lemma {:induction false} ReleasedKeeps<T>(a: Levels<T>, b: Levels<T>, live: multiset<Ptr>, gone: multiset<Ptr>)
    requires Sound(a, live + gone) && Released(a, b, live, gone)
    ensures Height(b) == Height(a) && Sound(b, live) && SameReads(a, b, live)
  {
    match (a, b)
    case (Leaf(data), Leaf(data')) =>
      SlabReleasedFull(data, data', live, gone);
      LeafReleasedReads(data, data', live, gone);
    case (Node(dir, below), Node(dir', below')) =>
      NodeReleasedKeeps(dir, below, dir', below', live, gone);
  }

  lemma LeafReleasedReads<T>(s: Slab<seq<T>>, t: Slab<seq<T>>, live: multiset<Ptr>, gone: multiset<Ptr>)
    requires SlabReleased(s, t, live, gone)
    ensures SameReads(Leaf(s), Leaf(t), live)
  {
  }

  lemma {:induction false} NodeReleasedKeeps<T>(dir: Slab<seq<Ptr>>, below: Levels<T>, dir': Slab<seq<Ptr>>,
                                                below': Levels<T>,
                                               live: multiset<Ptr>, gone: multiset<Ptr>)
    requires PagesFull(dir) && Sound(below, Entries(dir.cells))
    requires Released(Node(dir, below), Node(dir', below'), live, gone)
    ensures Height(below') == Height(below) && Sound(Node(dir', below'), live)
    ensures SameReads(Node(dir, below), Node(dir', below'), live)
    decreases below
  {
    var kept, lost := Entries(dir'.cells), Entries(dir.cells) - Entries(dir'.cells);
    assert kept + lost == Entries(dir.cells);
    SlabReleasedFull(dir, dir', live, gone);
    ReleasedKeeps(below, below', kept, lost);
    NodeReleasedReads(dir, below, dir', below', live, gone);
  }

  lemma NodeReleasedReads<T>(dir: Slab<seq<Ptr>>, below: Levels<T>, dir': Slab<seq<Ptr>>, below': Levels<T>,
                             live: multiset<Ptr>, gone: multiset<Ptr>)
    requires SlabReleased(dir, dir', live, gone)
    requires Height(below') == Height(below) && SameReads(below, below', Entries(dir'.cells))
    ensures SameReads(Node(dir, below), Node(dir', below'), live)
  {
    hide Entries, WellFormed;
    forall q, i: nat | q in live ensures At(Node(dir', below'), q, i) == At(Node(dir, below), q, i) {
      assert InUse(dir', q);
      var page := dir'.cells[q].item;
      forall c | c in page ensures c in Entries(dir'.cells) {
        var e :| 0 <= e < |page| && page[e] == c;
        EntryIsLive(dir', q, e);
      }
      SameThrough(below, below', page, i);
    }
  }

  lemma SlabReleasedGrew<X>(s: Slab<X>, t: Slab<X>, live: multiset<Ptr>, gone: multiset<Ptr>)
    requires SlabReleased(s, t, live, gone)
    ensures SlabGrew(s, t, 0, 0)
  {
    CountFewer(s.cells, t.cells);
  }

  /** Dropping pointers takes no room. */
  lemma {:induction false} ReleasedGrew<T>(a: Levels<T>, b: Levels<T>, live: multiset<Ptr>, gone: multiset<Ptr>)
    requires Released(a, b, live, gone)
    ensures TreeGrew(a, b, 0, 0)
  {
    match (a, b)
    case (Leaf(data), Leaf(data')) => SlabReleasedGrew(data, data', live, gone);
    case (Node(dir, below), Node(dir', below')) =>
      SlabReleasedGrew(dir, dir', live, gone);
      ReleasedGrew(below, below', Entries(dir'.cells), Entries(dir.cells) - Entries(dir'.cells));
  }

  lemma SlabReleasedSum<X>(s: Slab<X>, t: Slab<X>, live: multiset<Ptr>, gone: multiset<Ptr>)
    requires Covers(s, live + gone) && SlabReleased(s, t, live, gone)
    ensures RefSum(t.cells) + |gone| == RefSum(s.cells)
  {
    hide WellFormed;
    forall p | p in gone ensures InUse(s, p) {
      assert p in live + gone;
    }
    forall p | 0 <= p < |s.cells| ensures CellRefs(t.cells[p]) + gone[p] == CellRefs(s.cells[p]) {
      assert InUse(t, p) || !InUse(t, p);
    }
    SumDropped(s.cells, t.cells, gone);
  }

  /** Dropping pointers gives up just as many references, and every page that is freed those that it held. */
  lemma {:induction false} ReleasedBalance<T>(a: Levels<T>, b: Levels<T>, live: multiset<Ptr>, gone: multiset<Ptr>)
    requires Sound(a, live + gone) && Released(a, b, live, gone)
    ensures Balance(b) == Balance(a) - |gone|
  {
    hide WellFormed, PagesFull, Covers, SlabReleased, RefSum, Entries;
    match (a, b)
    case (Leaf(data), Leaf(data')) => SlabReleasedSum(data, data', live, gone);
    case (Node(dir, below), Node(dir', below')) =>
      SlabReleasedSum(dir, dir', live, gone);
      var kept, lost := Entries(dir'.cells), Entries(dir.cells) - Entries(dir'.cells);
      assert kept + lost == Entries(dir.cells);
      ReleasedBalance(below, below', kept, lost);
  }

  lemma {:induction false} ReleasedNothing<T>(lv: Levels<T>, live: multiset<Ptr>)
    requires Sound(lv, live)
    ensures Released(lv, lv, live, multiset{})
  {
    match lv
    case Leaf(data) => SlabReleasedNone(data, live);
    case Node(dir, below) =>
      SlabReleasedNone(dir, live);
      assert Entries(dir.cells) - Entries(dir.cells) == multiset{};
      ReleasedNothing(below, Entries(dir.cells));
  }

  // ---------- The worklist ----------

  function LiveAt(slabs': seq<Slab<seq<Ptr>>>, live: multiset<Ptr>, k: nat): multiset<Ptr>
    requires k <= |slabs'|
  {
    if k == 0 then live else Entries(slabs'[k - 1].cells)
  }

  function GoneAt(slabs: seq<Slab<seq<Ptr>>>, slabs': seq<Slab<seq<Ptr>>>, gone: multiset<Ptr>, k: nat): multiset<Ptr>
    requires k <= |slabs| == |slabs'|
  {
    if k == 0 then gone else Entries(slabs[k - 1].cells) - Entries(slabs'[k - 1].cells)
  }

  /** The tables above depth `k` have been dealt with. */
  ghost predicate ReleasedDown(slabs: seq<Slab<seq<Ptr>>>, slabs': seq<Slab<seq<Ptr>>>, live: multiset<Ptr>,
                               gone: multiset<Ptr>, k: nat)
    requires k <= |slabs| == |slabs'|
  {
    forall j: nat :: j < k ==>
      && SlabReleased(slabs[j], slabs'[j], LiveAt(slabs', live, j), GoneAt(slabs, slabs', gone, j))
      && Entries(slabs'[j].cells) <= Entries(slabs[j].cells)
  }

  lemma {:induction false} ReleasedUp<T>(slabs: seq<Slab<seq<Ptr>>>, slabs': seq<Slab<seq<Ptr>>>, data: Slab<seq<T>>,
                                         data': Slab<seq<T>>,
                                         live: multiset<Ptr>, gone: multiset<Ptr>, k: nat, j: nat)
    requires j <= k <= |slabs| == |slabs'| && ReleasedDown(slabs, slabs', live, gone, k)
    requires Released(Build(slabs[k..], data), Build(slabs'[k..], data'), LiveAt(slabs', live, k),
      GoneAt(slabs, slabs', gone, k))
    ensures Released(Build(slabs[j..], data), Build(slabs'[j..], data'), LiveAt(slabs', live, j),
      GoneAt(slabs, slabs', gone, j))
    decreases k - j
  {
    hide SlabReleased, Entries, Build, Released, ReleasedDown, LiveAt, GoneAt;
    if j < k {
      ReleasedAt(slabs, slabs', live, gone, k, j);
      ReleasedUp(slabs, slabs', data, data', live, gone, k, j + 1);
      BuildFrom(slabs, data, j);
      BuildFrom(slabs', data', j);
      ReleasedNode(slabs[j], Build(slabs[j + 1..], data), slabs'[j], Build(slabs'[j + 1..], data'),
                   LiveAt(slabs', live, j), GoneAt(slabs, slabs', gone, j));
    }
  }

  lemma ReleasedAt(slabs: seq<Slab<seq<Ptr>>>, slabs': seq<Slab<seq<Ptr>>>, live: multiset<Ptr>, gone: multiset<Ptr>,
                   k: nat, j: nat)
    requires j < k <= |slabs| == |slabs'| && ReleasedDown(slabs, slabs', live, gone, k)
    ensures SlabReleased(slabs[j], slabs'[j], LiveAt(slabs', live, j), GoneAt(slabs, slabs', gone, j))
    ensures Entries(slabs'[j].cells) <= Entries(slabs[j].cells)
    ensures LiveAt(slabs', live, j + 1) == Entries(slabs'[j].cells)
    ensures GoneAt(slabs, slabs', gone, j + 1) == Entries(slabs[j].cells) - Entries(slabs'[j].cells)
  {
  }

  lemma ReleasedNode<T>(dir: Slab<seq<Ptr>>, below: Levels<T>, dir': Slab<seq<Ptr>>, below': Levels<T>,
                        live: multiset<Ptr>, gone: multiset<Ptr>)
    requires SlabReleased(dir, dir', live, gone) && Entries(dir'.cells) <= Entries(dir.cells)
    requires Released(below, below', Entries(dir'.cells), Entries(dir.cells) - Entries(dir'.cells))
    ensures Released(Node(dir, below), Node(dir', below'), live, gone)
  {
    hide SlabReleased, Entries;
  }

  lemma BuildFrom<T>(slabs: seq<Slab<seq<Ptr>>>, data: Slab<seq<T>>, j: nat)
    requires j < |slabs|
    ensures Build(slabs[j..], data) == Node(slabs[j], Build(slabs[j + 1..], data))
  {
  }

  lemma {:induction false} BuildSound<T>(slabs: seq<Slab<seq<Ptr>>>, data: Slab<seq<T>>, live: multiset<Ptr>, k: nat)
    requires Sound(Build(slabs, data), live) && k <= |slabs|
    ensures Sound(Build(slabs[k..], data), LiveAt(slabs, live, k))
  {
    hide Entries;
    if k > 0 {
      BuildSound(slabs, data, live, k - 1);
      assert slabs[k - 1..][1..] == slabs[k..];
    }
  }

  /** What the worklist and the pages of the table above hold together is what that table used to hold. */
  lemma LevelCovers<T>(slabs: seq<Slab<seq<Ptr>>>, slabs': seq<Slab<seq<Ptr>>>, data: Slab<seq<T>>, live: multiset<Ptr>,
                       gone: multiset<Ptr>, k: nat)
    requires k <= |slabs| == |slabs'| && Sound(Build(slabs, data), live + gone)
    requires ReleasedDown(slabs, slabs', live, gone, k)
    ensures Sound(Build(slabs[k..], data), LiveAt(slabs', live, k) + GoneAt(slabs, slabs', gone, k))
  {
    hide Sound, SlabReleased;
    BuildSound(slabs, data, live + gone, k);
    if k > 0 {
      assert Entries(slabs'[k - 1].cells) <= Entries(slabs[k - 1].cells);
      assert LiveAt(slabs', live, k) + GoneAt(slabs, slabs', gone, k) == Entries(slabs[k - 1].cells);
    }
  }

  lemma TopCovers<T>(slabs: seq<Slab<seq<Ptr>>>, data: Slab<seq<T>>, live: multiset<Ptr>)
    requires Sound(Build(slabs, data), live)
    ensures slabs == [] ==> Covers(data, live)
    ensures slabs != [] ==> Covers(slabs[0], live)
  {
  }

  lemma ReleasedOneMore(slabs: seq<Slab<seq<Ptr>>>, slabs0: seq<Slab<seq<Ptr>>>, slabs': seq<Slab<seq<Ptr>>>,
                        live: multiset<Ptr>, gone: multiset<Ptr>, k: nat, lost: multiset<Ptr>)
    requires k < |slabs| == |slabs0| == |slabs'| && ReleasedDown(slabs, slabs0, live, gone, k)
    requires forall j: nat :: j < |slabs| && j != k ==> slabs'[j] == slabs0[j]
    requires SlabReleased(slabs[k], slabs'[k], LiveAt(slabs0, live, k), GoneAt(slabs, slabs0, gone, k))
    requires Entries(slabs[k].cells) == Entries(slabs'[k].cells) + lost
    ensures ReleasedDown(slabs, slabs', live, gone, k + 1)
    ensures GoneAt(slabs, slabs', gone, k + 1) == lost
  {
    hide SlabReleased, Entries;
    assert Entries(slabs[k].cells) - Entries(slabs'[k].cells) == lost;
    forall j: nat | j <= k
      ensures SlabReleased(slabs[j], slabs'[j], LiveAt(slabs', live, j), GoneAt(slabs, slabs', gone, j))
      ensures Entries(slabs'[j].cells) <= Entries(slabs[j].cells)
    {
      assert LiveAt(slabs', live, j) == LiveAt(slabs0, live, j);
      assert GoneAt(slabs, slabs', gone, j) == GoneAt(slabs, slabs0, gone, j);
    }
  }

  /** Drops a pointer to a whole tree. */
  method DropTablePtr<T>(data: Table<seq<T>>, dirs: seq<Table<seq<Ptr>>>, p: Ptr, ghost live: multiset<Ptr>)
    requires Separate(data, dirs) && AllValid(data, dirs)
    requires Sound(LevelsOf(data, dirs), live + multiset{p})
    modifies data, dirs
    ensures AllValid(data, dirs)
    ensures Released(old(LevelsOf(data, dirs)), LevelsOf(data, dirs), live, multiset{p})
    ensures Sound(LevelsOf(data, dirs), live) && SameReads(old(LevelsOf(data, dirs)), LevelsOf(data, dirs), live)
    ensures Balance(LevelsOf(data, dirs)) == old(Balance(LevelsOf(data, dirs))) - 1
  {
    hide Sound, SlabReleased, Entries, LevelsOf, WellFormed, Released, ReleasedDown, Build, Covers, LiveAt, GoneAt,
         SameReads, Balance;
    ghost var tree, gone := LevelsOf(data, dirs), multiset{p};
    ghost var slabs, pages := Values(dirs), data.Value();
    LevelsOfBuild(data, dirs);
    DropStart(slabs, live, gone);
    var droped := [p];
    var k := 0;
    while k < |dirs|
      invariant 0 <= k <= |dirs|
      invariant AllValid(data, dirs) && data.Value() == pages
      invariant forall j :: k <= j < |dirs| ==> dirs[j].Value() == slabs[j]
      invariant ReleasedDown(slabs, Values(dirs), live, gone, k)
      invariant multiset(droped) == GoneAt(slabs, Values(dirs), gone, k)
    {
      ghost var slabs0 := Values(dirs);
      LevelCovers(slabs, slabs0, pages, live, gone, k);
      TopCovers(slabs[k..], pages, LiveAt(slabs0, live, k) + multiset(droped));
      var nextDroped := PopDirs(dirs[k], droped, LiveAt(slabs0, live, k));
      assert AllValid(data, dirs);
      ReleasedOneMore(slabs, slabs0, Values(dirs), live, gone, k, multiset(Flatten(nextDroped)));
      droped := Flatten(nextDroped);
      k := k + 1;
      if nextDroped == [] {
        DropRest(slabs, Values(dirs), pages, live, gone, k);
        DropDone(data, dirs, tree, slabs, pages, live, gone, k);
        return;
      }
    }
    ghost var slabs0 := Values(dirs);
    LevelCovers(slabs, slabs0, pages, live, gone, k);
    TopCovers(slabs[k..], pages, LiveAt(slabs0, live, k) + multiset(droped));
    PopData(data, droped, LiveAt(slabs0, live, k));
    assert AllValid(data, dirs) && Values(dirs) == slabs0;
    DropLeaf(slabs, slabs0, pages, data.Value(), live, gone);
    DropDone(data, dirs, tree, slabs, pages, live, gone, k);
  }

  lemma DropStart(slabs: seq<Slab<seq<Ptr>>>, live: multiset<Ptr>, gone: multiset<Ptr>)
    ensures ReleasedDown(slabs, slabs, live, gone, 0) && GoneAt(slabs, slabs, gone, 0) == gone
  {
  }

  /** An empty worklist leaves the tables below alone. */
  lemma DropRest<T>(slabs: seq<Slab<seq<Ptr>>>, slabs': seq<Slab<seq<Ptr>>>, data: Slab<seq<T>>, live: multiset<Ptr>,
                    gone: multiset<Ptr>, k: nat)
    requires k <= |slabs| == |slabs'| && Sound(Build(slabs, data), live + gone)
    requires ReleasedDown(slabs, slabs', live, gone, k) && GoneAt(slabs, slabs', gone, k) == multiset{}
    requires forall j :: k <= j < |slabs| ==> slabs'[j] == slabs[j]
    ensures Released(Build(slabs[k..], data), Build(slabs'[k..], data), LiveAt(slabs', live, k),
      GoneAt(slabs, slabs', gone, k))
  {
    hide Sound, Released, ReleasedDown, GoneAt, LiveAt, Build;
    LevelCovers(slabs, slabs', data, live, gone, k);
    assert slabs[k..] == slabs'[k..];
    assert LiveAt(slabs', live, k) + multiset{} == LiveAt(slabs', live, k);
    ReleasedNothing(Build(slabs[k..], data), LiveAt(slabs', live, k));
  }

  lemma DropLeaf<T>(slabs: seq<Slab<seq<Ptr>>>, slabs': seq<Slab<seq<Ptr>>>, data: Slab<seq<T>>, data': Slab<seq<T>>,
                    live: multiset<Ptr>, gone: multiset<Ptr>)
    requires |slabs| == |slabs'|
    requires SlabReleased(data, data', LiveAt(slabs', live, |slabs|), GoneAt(slabs, slabs', gone, |slabs|))
    ensures Released(Build(slabs[|slabs|..], data), Build(slabs'[|slabs|..], data'),
                     LiveAt(slabs', live, |slabs|), GoneAt(slabs, slabs', gone, |slabs|))
  {
  }

  lemma DropDone<T>(data: Table<seq<T>>, dirs: seq<Table<seq<Ptr>>>, tree: Levels<T>, slabs: seq<Slab<seq<Ptr>>>,
                    pages: Slab<seq<T>>,
                    live: multiset<Ptr>, gone: multiset<Ptr>, k: nat)
    requires AllValid(data, dirs) && k <= |dirs| == |slabs| && tree == Build(slabs, pages) && Sound(tree, live + gone)
    requires ReleasedDown(slabs, Values(dirs), live, gone, k)
    requires Released(Build(slabs[k..], pages), Build(Values(dirs)[k..], data.Value()),
                      LiveAt(Values(dirs), live, k), GoneAt(slabs, Values(dirs), gone, k))
    ensures Released(tree, LevelsOf(data, dirs), live, gone)
    ensures Sound(LevelsOf(data, dirs), live) && SameReads(tree, LevelsOf(data, dirs), live)
    ensures Balance(LevelsOf(data, dirs)) == Balance(tree) - |gone|
  {
    hide Sound, SlabReleased, Entries, LevelsOf, WellFormed, Released, ReleasedDown, Build, Covers, SameReads, Balance;
    LevelsOfBuild(data, dirs);
    ReleasedUp(slabs, Values(dirs), pages, data.Value(), live, gone, k, 0);
    assert slabs[0..] == slabs && Values(dirs)[0..] == Values(dirs);
    ReleasedKeeps(tree, LevelsOf(data, dirs), live, gone);
    ReleasedBalance(tree, LevelsOf(data, dirs), live, gone);
  }
}
