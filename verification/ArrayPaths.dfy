/** The walk that hands out a mutable reference to one position: it goes down level by level,
    duplicates every shared page it meets and links the duplicate into the page above. */
module ArrayPaths {
  import opened Options
  import opened Slabs
  import opened Tables
  import opened RadixTree
  import opened Rooms
  import opened Balances
  import opened Sharings
  import opened Chunks
  import opened ArrayStorages
  import opened ArrayReads

  // ---------- Paths on values ----------

  function Sub<T>(lv: Levels<T>, k: nat): Levels<T>
    requires k <= Height(lv)
  {
    if k == 0 then lv else Sub(lv.below, k - 1)
  }

  /** The live pointers of the table at depth `k`. */
  ghost function LiveBelow<T>(lv: Levels<T>, live: multiset<Ptr>, k: nat): multiset<Ptr>
    requires k <= Height(lv)
  {
    if k == 0 then live else LiveBelow(lv.below, Entries(lv.dir.cells), k - 1)
  }

  /** Position within the page at depth `k`, and the entry the walk takes there. */
  function OffAt<T>(lv: Levels<T>, index: nat, k: nat): nat
    requires k <= Height(lv)
  {
    if k == 0 then index else OffAt(lv.below, OffsetOf(index, Size(lv.below)), k - 1)
  }

  /** The page the walk meets at depth `k`. */
  function PtrAt<T>(lv: Levels<T>, p: Ptr, index: nat, k: nat): Ptr
    requires k <= Height(lv)
  {
    if k == 0 then p
    else
      var e := PageOf(index, Size(lv.below));
      if InUse(lv.dir, p) && e < |lv.dir.cells[p].item|
      then PtrAt(lv.below, lv.dir.cells[p].item[e], OffsetOf(index, Size(lv.below)), k - 1)
      else 0
  }

  /** The walk owns every page above depth `k`. */
  ghost predicate Owned<T>(lv: Levels<T>, p: Ptr, index: nat, k: nat)
    requires k <= Height(lv)
  {
    k == 0 ||
    var e := PageOf(index, Size(lv.below));
    && InUse(lv.dir, p) && lv.dir.cells[p].refs == 1 && e < |lv.dir.cells[p].item|
    && Owned(lv.below, lv.dir.cells[p].item[e], OffsetOf(index, Size(lv.below)), k - 1)
  }

  /** Replaces the tree the walk meets at depth `k`, and links its new name into the page above. */
  function Plug<T>(lv: Levels<T>, p: Ptr, index: nat, k: nat, q: Ptr, sub: Levels<T>): (Levels<T>, Ptr)
    requires k <= Height(lv)
  {
    if k == 0 then (sub, q)
    else
      var e := PageOf(index, Size(lv.below));
      if InUse(lv.dir, p) && e < |lv.dir.cells[p].item| then
        var page := lv.dir.cells[p].item;
        var (below, c) := Plug(lv.below, page[e], OffsetOf(index, Size(lv.below)), k - 1, q, sub);
        (Node(SetItem(lv.dir, p, page[e := c]), below), p)
      else (lv, p)
  }

  /** The walk stays among live pointers. */
  lemma {:induction false} PathSound<T>(lv: Levels<T>, live: multiset<Ptr>, p: Ptr, index: nat, k: nat)
    requires Sound(lv, live) && p in live && index < Size(lv) && k <= Height(lv)
    ensures Sound(Sub(lv, k), LiveBelow(lv, live, k)) && PtrAt(lv, p, index, k) in LiveBelow(lv, live, k)
    ensures OffAt(lv, index, k) < Size(Sub(lv, k)) && Height(Sub(lv, k)) == Height(lv) - k
  {
    hide Sound, Entries, PageOf, OffsetOf, At;
    if k > 0 {
      WalkStep(lv.dir, lv.below, live, p, index);
      PathSound(lv.below, Entries(lv.dir.cells), lv.dir.cells[p].item[PageOf(index, Size(lv.below))],
                OffsetOf(index, Size(lv.below)), k - 1);
    }
  }

  /** A write at the end of an owned walk is a write to the whole tree. */
  lemma {:induction false} PlugWrote<T>(lv: Levels<T>, live: multiset<Ptr>, p: Ptr, index: nat, k: nat, q: Ptr,
                                        sub: Levels<T>, buf: seq<T>)
    requires Sound(lv, live) && p in live && index < Size(lv) && |buf| <= 1
    requires k <= Height(lv) && Owned(lv, p, index, k)
    requires Wrote(Sub(lv, k), sub, LiveBelow(lv, live, k), PtrAt(lv, p, index, k), q, OffAt(lv, index, k), buf)
    ensures Wrote(lv, Plug(lv, p, index, k, q, sub).0, live, p, Plug(lv, p, index, k, q, sub).1, index, buf)
    ensures k > 0 ==> Plug(lv, p, index, k, q, sub).1 == p
  {
    hide Sound, Wrote, Entries, PageOf, OffsetOf, At, Start;
    if k > 0 {
      var d := Size(lv.below);
      var e, off := PageOf(index, d), OffsetOf(index, d);
      WalkStep(lv.dir, lv.below, live, p, index);
      EntryOf(index, d, PAGE_SIZE);
      StartIsProduct(lv.below, e);
      var c := lv.dir.cells[p].item[e];
      PlugWrote(lv.below, Entries(lv.dir.cells), c, off, k - 1, q, sub, buf);
      var (below, c') := Plug(lv.below, c, off, k - 1, q, sub);
      WriteEntry(lv.dir, lv.below, below, live, p, e, c', off, buf);
    }
  }

  /** After the replacement the walk meets the new tree. */
  lemma {:induction false} PlugPath<T>(lv: Levels<T>, p: Ptr, index: nat, k: nat, q: Ptr, sub: Levels<T>)
    requires k <= Height(lv) && Owned(lv, p, index, k) && Height(sub) == Height(lv) - k
    ensures var (lv', p') := Plug(lv, p, index, k, q, sub);
      && Height(lv') == Height(lv) && Owned(lv', p', index, k)
      && Sub(lv', k) == sub && PtrAt(lv', p', index, k) == q && OffAt(lv', index, k) == OffAt(lv, index, k)
  {
    hide PageOf, OffsetOf, At;
    if k > 0 {
      var e, off := PageOf(index, Size(lv.below)), OffsetOf(index, Size(lv.below));
      PlugPath(lv.below, lv.dir.cells[p].item[e], off, k - 1, q, sub);
      SizeFromHeight(lv.below, Plug(lv.below, lv.dir.cells[p].item[e], off, k - 1, q, sub).0);
    }
  }

  lemma {:induction false} OwnedOneMore<T>(lv: Levels<T>, p: Ptr, index: nat, k: nat)
    requires k < Height(lv) && Owned(lv, p, index, k)
    requires
      && Sub(lv, k).Node? && InUse(Sub(lv, k).dir, PtrAt(lv, p, index, k))
      && Sub(lv, k).dir.cells[PtrAt(lv, p, index, k)].refs == 1
    requires PageOf(OffAt(lv, index, k), Size(Sub(lv, k).below)) < |Sub(lv, k).dir.cells[PtrAt(lv, p, index, k)].item|
    ensures Owned(lv, p, index, k + 1)
    ensures PtrAt(lv, p, index, k + 1)
      == Sub(lv, k).dir.cells[PtrAt(lv, p, index, k)].item[PageOf(OffAt(lv, index, k), Size(Sub(lv, k).below))]
    ensures OffAt(lv, index, k + 1) == OffsetOf(OffAt(lv, index, k), Size(Sub(lv, k).below))
    ensures Sub(lv, k + 1) == Sub(lv, k).below
  {
    hide PageOf, OffsetOf;
    if k > 0 {
      OwnedOneMore(lv.below, lv.dir.cells[p].item[PageOf(index, Size(lv.below))], OffsetOf(index, Size(lv.below)),
                   k - 1);
    }
  }

  lemma {:induction false} OutOfRoomBelow<T>(lv: Levels<T>, k: nat)
    requires k <= Height(lv) && OutOfRoom(Sub(lv, k))
    ensures OutOfRoom(lv)
  {
    if k > 0 {
      OutOfRoomBelow(lv.below, k - 1);
    }
  }

  lemma {:induction false} PagesFitSub<T>(lv: Levels<T>, k: nat, n: nat)
    requires k <= Height(lv)
    ensures PagesFit(lv, n) ==> PagesFit(Sub(lv, k), n)
  {
    if k > 0 {
      PagesFitBelow(lv.dir, lv.below, n);
      PagesFitSub(lv.below, k - 1, n);
    }
  }

  /** Linking in the tree at depth `k` takes no more than the tree itself took. */
  lemma {:induction false} PlugPaid<T>(lv: Levels<T>, p: Ptr, index: nat, k: nat, q: Ptr, sub: Levels<T>, n: nat)
    requires k <= Height(lv) && Owned(lv, p, index, k) && PagesPaid(Sub(lv, k), sub, n)
    ensures PagesPaid(lv, Plug(lv, p, index, k, q, sub).0, n)
  {
    hide PageOf, OffsetOf, PagesPaid;
    if k > 0 {
      var e, off := PageOf(index, Size(lv.below)), OffsetOf(index, Size(lv.below));
      var c := lv.dir.cells[p].item[e];
      PlugPaid(lv.below, c, off, k - 1, q, sub, n);
      var (below, c') := Plug(lv.below, c, off, k - 1, q, sub);
      var page: seq<Ptr> := lv.dir.cells[p].item[e := c'];
      WriteEntryPays(lv.dir, lv.below, below, p, page, n);
    }
  }

  // ---------- Trees as rows of tables ----------

  function Build<T>(slabs: seq<Slab<seq<Ptr>>>, data: Slab<seq<T>>): (lv: Levels<T>)
    ensures Height(lv) == |slabs|
  {
    if slabs == [] then Leaf(data) else Node(slabs[0], Build(slabs[1..], data))
  }

  lemma {:induction false} BuildSub<T>(slabs: seq<Slab<seq<Ptr>>>, data: Slab<seq<T>>, k: nat)
    requires k <= |slabs|
    ensures Sub(Build(slabs, data), k) == Build(slabs[k..], data)
  {
    if k > 0 {
      BuildSub(slabs[1..], data, k - 1);
      assert slabs[1..][k - 1..] == slabs[k..];
    }
  }

  /** Changing the tables from depth `k` on and the entry above them is a replacement at depth `k`. */
  lemma {:induction false} BuildPlug<T>(slabs: seq<Slab<seq<Ptr>>>, data: Slab<seq<T>>, slabs': seq<Slab<seq<Ptr>>>,
                                        data': Slab<seq<T>>,
                                        p: Ptr, index: nat, k: nat, q: Ptr)
    requires 0 < k <= |slabs| == |slabs'| && slabs'[..k - 1] == slabs[..k - 1]
    requires Owned(Build(slabs, data), p, index, k)
    requires var lv := Build(slabs, data);
      var up, e := PtrAt(lv, p, index, k - 1), PageOf(OffAt(lv, index, k - 1), Size(Build(slabs[k..], data)));
      InUse(slabs[k - 1], up) && e < |slabs[k - 1].cells[up].item|
      && slabs'[k - 1] == SetItem(slabs[k - 1], up, slabs[k - 1].cells[up].item[e := q])
    ensures Plug(Build(slabs, data), p, index, k, q, Build(slabs'[k..], data')) == (Build(slabs', data'), p)
  {
    hide PageOf, OffsetOf;
    var lv := Build(slabs, data);
    if k > 1 {
      var e, off := PageOf(index, Size(lv.below)), OffsetOf(index, Size(lv.below));
      var page := slabs[0].cells[p].item;
      assert slabs[1..][k - 1..] == slabs[k..] && slabs'[1..][k - 1..] == slabs'[k..];
      assert slabs'[0] == slabs'[..k - 1][0] == slabs[0];
      assert slabs'[1..][..k - 2] == slabs'[..k - 1][1..] && slabs[1..][..k - 2] == slabs[..k - 1][1..];
      BuildPlug(slabs[1..], data, slabs'[1..], data', page[e], off, k - 1, q);
      assert page[e := page[e]] == page;
      assert SetItem(slabs[0], p, page).cells == slabs[0].cells;
    }
  }

  ghost function Values(dirs: seq<Table<seq<Ptr>>>): (slabs: seq<Slab<seq<Ptr>>>)
    reads dirs
    requires forall i :: 0 <= i < |dirs| ==> dirs[i].Valid()
    ensures |slabs| == |dirs| && forall i :: 0 <= i < |dirs| ==> dirs[i].Valid() && slabs[i] == dirs[i].Value()
  {
    seq(|dirs|, i requires 0 <= i < |dirs| && dirs[i].Valid() reads dirs => dirs[i].Value())
  }

  lemma {:induction false} LevelsOfBuild<T>(data: Table<seq<T>>, dirs: seq<Table<seq<Ptr>>>)
    requires AllValid(data, dirs)
    ensures LevelsOf(data, dirs) == Build(Values(dirs), data.Value())
  {
    if dirs != [] {
      LevelsOfBuild(data, dirs[1..]);
      assert Values(dirs)[1..] == Values(dirs[1..]);
    }
  }

  lemma LevelsOfSub<T>(data: Table<seq<T>>, dirs: seq<Table<seq<Ptr>>>, k: nat)
    requires AllValid(data, dirs) && k <= |dirs|
    ensures AllValid(data, dirs[k..])
    ensures Sub(LevelsOf(data, dirs), k) == LevelsOf(data, dirs[k..])
  {
  }

  // ---------- The walk ----------

  /** Where the mutable reference to a pointer points: the caller's own variable, or an entry of a
      page of the table above. */
  datatype Slot = Root | EntryOfPage(page: Ptr, entry: nat)

  /** The slot holds the pointer the walk follows at depth `k`. */
  ghost predicate SlotAt<T>(lv: Levels<T>, root: Ptr, index: nat, k: nat, slot: Slot)
    requires k <= Height(lv)
  {
    if k == 0 then slot.Root?
    else slot == EntryOfPage(PtrAt(lv, root, index, k - 1), PageOf(OffAt(lv, index, k - 1), Size(Sub(lv, k))))
  }

  lemma {:induction false} OwnedAbove<T>(slabs: seq<Slab<seq<Ptr>>>, data: Slab<seq<T>>, p: Ptr, index: nat, k: nat)
    requires 0 < k <= |slabs| && Owned(Build(slabs, data), p, index, k)
    ensures var lv := Build(slabs, data);
      var up, e := PtrAt(lv, p, index, k - 1), PageOf(OffAt(lv, index, k - 1), Size(Build(slabs[k..], data)));
      InUse(slabs[k - 1], up) && slabs[k - 1].cells[up].refs == 1 && e < |slabs[k - 1].cells[up].item|
  {
    hide PageOf, OffsetOf;
    if k > 1 {
      var lv := Build(slabs, data);
      var e, off := PageOf(index, Size(lv.below)), OffsetOf(index, Size(lv.below));
      assert slabs[1..][k - 1..] == slabs[k..];
      OwnedAbove(slabs[1..], data, slabs[0].cells[p].item[e], off, k - 1);
    }
  }

  /** Writes pointer `q` through the reference held at depth `k`; `slabs` and `pages` are what the
      tables held before the tables from depth `k` on were changed. */
  method Assign<T>(data: Table<seq<T>>, dirs: seq<Table<seq<Ptr>>>, k: nat, slot: Slot, root: Ptr, q: Ptr,
                   ghost slabs: seq<Slab<seq<Ptr>>>, ghost pages: Slab<seq<T>>, ghost index: nat) returns (root': Ptr)
    requires Separate(data, dirs) && AllValid(data, dirs) && k <= |dirs| == |slabs|
    requires Owned(Build(slabs, pages), root, index, k) && SlotAt(Build(slabs, pages), root, index, k, slot)
    requires slabs[..k] == Values(dirs)[..k]
    modifies dirs
    ensures AllValid(data, dirs)
    ensures (LevelsOf(data, dirs), root')
      == Plug(Build(slabs, pages), root, index, k, q, old(LevelsOf(data, dirs[k..])))
    ensures forall i :: k <= i < |dirs| ==> dirs[i].Valid() && dirs[i].Value() == old(dirs[i].Value())
  {
    hide PageOf, OffsetOf, Owned, PtrAt, OffAt, Plug, Build, LevelsOf, WellFormed, Height, Size;
    ghost var before := Build(slabs, pages);
    ghost var values, leaves := Values(dirs), data.Value();
    LevelsOfBuild(data, dirs[k..]);
    assert Values(dirs[k..]) == values[k..];
    if k == 0 {
      root' := q;
      PlugRoot(before, root, index, q, LevelsOf(data, dirs));
    } else {
      root' := root;
      OwnedAbove(slabs, pages, root, index, k);
      BuildSub(slabs, pages, k);
      assert values[k - 1] == values[..k][k - 1] == slabs[k - 1];
      var page := dirs[k - 1].GetItem(slot.page);
      dirs[k - 1].SetItem(slot.page, page[slot.entry := q]);
      ghost var values' := Values(dirs);
      assert values'[..k - 1] == values[..k - 1] == slabs[..k][..k - 1] == slabs[..k - 1];
      assert values'[k..] == values[k..];
      BuildPlug(slabs, pages, values', leaves, root, index, k, q);
      LevelsOfBuild(data, dirs);
    }
  }

  lemma PlugRoot<T>(lv: Levels<T>, p: Ptr, index: nat, q: Ptr, sub: Levels<T>)
    ensures Plug(lv, p, index, 0, q, sub) == (sub, q)
  {
  }

  /** One turn of the walk: makes the page met at depth `k` the caller's own. Gives the new name of
      the whole tree and that of the page. */
  method OwnLevel<T>(data: Table<seq<T>>, dirs: seq<Table<seq<Ptr>>>, k: nat, slot: Slot, root: Ptr, ptr: Ptr,
                     ghost off: nat,
                     ghost index: nat, ghost live: multiset<Ptr>) returns (r: Outcome<(Ptr, Ptr)>)
    requires Separate(data, dirs) && AllValid(data, dirs) && k < |dirs|
    requires Sound(LevelsOf(data, dirs), live) && root in live && index < Size(LevelsOf(data, dirs))
    requires Owned(LevelsOf(data, dirs), root, index, k) && SlotAt(LevelsOf(data, dirs), root, index, k, slot)
    requires ptr == PtrAt(LevelsOf(data, dirs), root, index, k) && off == OffAt(LevelsOf(data, dirs), index, k)
    modifies data, dirs
    ensures AllValid(data, dirs) && (r.Overflow? ==> OutOfRoom(LevelsOf(data, dirs)))
    ensures old(PagesFit(LevelsOf(data, dirs), PageCost(Sub(LevelsOf(data, dirs), k), ptr))) ==> r.Done?
    ensures r.Done? ==>
      && PagesPaid(old(LevelsOf(data, dirs)), LevelsOf(data, dirs), old(PageCost(Sub(LevelsOf(data, dirs), k), ptr)))
      && Opened(old(Sub(LevelsOf(data, dirs), k)), Sub(LevelsOf(data, dirs), k), ptr, r.value.1)
    ensures r.Done? ==> var (root', q) := r.value;
      && Wrote(old(LevelsOf(data, dirs)), LevelsOf(data, dirs), live, root, root', index, [])
      && Owned(LevelsOf(data, dirs), root', index, k) && q == PtrAt(LevelsOf(data, dirs), root', index, k)
      && off == OffAt(LevelsOf(data, dirs), index, k)
      && InUse(dirs[k].Value(), q) && dirs[k].Value().cells[q].refs == 1
  {
    hide Sound, Wrote, Owned, PtrAt, OffAt, Plug, Build, LevelsOf, WellFormed, Size, Height, Sub, LiveBelow, SlotAt,
         Separate,
         OutOfRoom, PagesFit, PagesPaid, Tame, Opened, PageCost;
    ghost var tree := LevelsOf(data, dirs);
    ghost var slabs, pages := Values(dirs), data.Value();
    var dir, next := dirs[k], dirs[k + 1..];
    LevelsOfBuild(data, dirs);
    LevelsOfSub(data, dirs, k);
    PathSound(tree, live, root, index, k);
    SeparateAt(data, dirs, k);
    PagesFitSub(tree, k, PageCost(Sub(tree, k), ptr));
    var own := OwnDirPage(dir, data, next, ptr, LiveBelow(tree, live, k), off);
    AllValidAgain(data, dirs, k, slabs);
    assert dirs[k].Valid();
    if own.Overflow? {
      LevelsOfSub(data, dirs, k);
      OutOfRoomBelow(LevelsOf(data, dirs), k);
      return Overflow;
    }
    var q := own.value;
    ghost var sub := LevelsOf(data, dirs[k..]);
    WroteTop(Sub(tree, k), sub, LiveBelow(tree, live, k), ptr, q, off, []);
    var root' := Assign(data, dirs, k, slot, root, q, slabs, pages, index);
    PlugWrote(tree, live, root, index, k, q, sub, []);
    PlugPath(tree, root, index, k, q, sub);
    PlugPaid(tree, root, index, k, q, sub, PageCost(Sub(tree, k), ptr));
    r := Done((root', q));
  }

  // ---------- The whole walk ----------

  /** Nothing reads differently, apart from `p` now being called `root`. */
  ghost predicate Renamed<T>(before: Levels<T>, now: Levels<T>, live: multiset<Ptr>, p: Ptr, root: Ptr) {
    && Height(now) == Height(before)
    && SameReads(before, now, live - multiset{p})
    && forall i: nat :: At(now, root, i) == At(before, p, i)
  }

  lemma WroteRenamed<T>(a: Levels<T>, b: Levels<T>, c: Levels<T>, live: multiset<Ptr>, p: Ptr, r: Ptr, r': Ptr,
                        index: nat, buf: seq<T>)
    requires p in live && Renamed(a, b, live, p, r)
    requires Wrote(b, c, live - multiset{p} + multiset{r}, r, r', index, buf)
    ensures Wrote(a, c, live, p, r', index, buf)
    ensures buf == [] ==> Renamed(a, c, live, p, r')
  {
    hide At, Sound;
    var rest := live - multiset{p};
    assert rest + multiset{r} - multiset{r} == rest;
    forall q, i: nat | q in rest ensures At(c, q, i) == At(a, q, i) {
      assert At(b, q, i) == At(a, q, i);
    }
    forall i: nat ensures At(c, r', i) == if index <= i < index + |buf| then Some(buf[i - index]) else At(a, p, i) {
      assert At(b, r, i) == At(a, p, i);
    }
  }

  /** Where the walk is: the slot that holds the pointer it follows, the position below the page, and
      the number of positions below one entry of it. */
  datatype Step = Step(slot: Slot, ptr: Ptr, off: nat, divisor: nat)

  /** What the walk knows at depth `k`. */
  ghost predicate WalkAt<T>(now: Levels<T>, root: Ptr, index: nat, k: nat, step: Step) {
    && k <= Height(now) && index < Size(now) && Owned(now, root, index, k) && SlotAt(now, root, index, k, step.slot)
    && step.ptr == PtrAt(now, root, index, k) && step.off == OffAt(now, index, k) && step.divisor == Span(Sub(now, k))
  }

  /** One level down, through the page the walk has just made its own. */
  lemma WalkNext<T>(now: Levels<T>, live: multiset<Ptr>, root: Ptr, index: nat, k: nat, q: Ptr, off: nat, divisor: nat)
    requires k < Height(now) && index < Size(now) && Sound(now, live) && root in live
    requires Owned(now, root, index, k) && q == PtrAt(now, root, index, k) && off == OffAt(now, index, k)
    requires Height(Sub(now, k)) == Height(now) - k && InUse(Sub(now, k).dir, q) && Sub(now, k).dir.cells[q].refs == 1
    requires divisor == Span(Sub(now, k))
    ensures var e := PageOf(off, divisor);
      && e < |Sub(now, k).dir.cells[q].item|
      && WalkAt(now, root, index, k + 1,
        Step(EntryOfPage(q, e), Sub(now, k).dir.cells[q].item[e], OffsetOf(off, divisor), divisor / PAGE_SIZE))
  {
    hide Sound, At, PageOf, OffsetOf;
    var sub := Sub(now, k);
    PathSound(now, live, root, index, k);
    WalkStep(sub.dir, sub.below, LiveBelow(now, live, k), q, off);
    OwnedOneMore(now, root, index, k);
    SpanOfChild(sub.below);
  }

  /** At the data page the divisor has come down to one. */
  lemma WalkEnd<T>(now: Levels<T>, root: Ptr, index: nat, step: Step)
    requires WalkAt(now, root, index, Height(now), step)
    ensures step.divisor == 1
  {
    SpanAt(now, now, Height(now));
  }

  lemma WalkStart<T>(lv: Levels<T>, live: multiset<Ptr>, p: Ptr, index: nat)
    requires index < Size(lv) && p in live
    ensures WalkAt(lv, p, index, 0, Step(Root, p, index, Power64(Height(lv)))) && Renamed(lv, lv, live, p, p)
    ensures live - multiset{p} + multiset{p} == live
  {
    SpanIsPower(lv);
  }

  /** Hands out a mutable reference to position `index` of the tree named by `p`, and writes `value`
      through it. */
  method Set<T>(data: Table<seq<T>>, dirs: seq<Table<seq<Ptr>>>, p: Ptr, index: nat, value: T,
                ghost live: multiset<Ptr>) returns (q: Outcome<Ptr>)
    requires Separate(data, dirs) && AllValid(data, dirs)
    requires Sound(LevelsOf(data, dirs), live) && p in live && index < Size(LevelsOf(data, dirs))
    modifies data, dirs
    ensures AllValid(data, dirs) && (q.Overflow? ==> OutOfRoom(LevelsOf(data, dirs)))
    ensures old(PagesFit(LevelsOf(data, dirs), Shared(LevelsOf(data, dirs), p, index, index + 1))) ==> q.Done?
    ensures q.Done? ==>
      && Wrote(old(LevelsOf(data, dirs)), LevelsOf(data, dirs), live, p, q.value, index, [value])
      && PagesPaid(old(LevelsOf(data, dirs)), LevelsOf(data, dirs),
        old(Shared(LevelsOf(data, dirs), p, index, index + 1)))
  {
    hide Sound, Wrote, WalkAt, Renamed, LevelsOf, WellFormed, Size, Height, PageOf, OffsetOf, Separate, AllValid,
         OutOfRoom,
         PagesFit, PagesPaid, Shared;
    ghost var before := LevelsOf(data, dirs);
    ghost var total := Shared(before, p, index, index + 1);
    ghost var used: nat := 0;
    PagesPaidRefl(before);
    var root := p;
    var step := Step(Root, p, index, Power64(|dirs|));
    WalkStart(before, live, p, index);
    var k := 0;
    while k < |dirs|
      invariant 0 <= k <= |dirs|
      invariant AllValid(data, dirs)
      invariant Sound(LevelsOf(data, dirs), live - multiset{p} + multiset{root})
      invariant Renamed(before, LevelsOf(data, dirs), live, p, root)
      invariant WalkAt(LevelsOf(data, dirs), root, index, k, step)
      invariant PagesPaid(before, LevelsOf(data, dirs), used) && ToCome(LevelsOf(data, dirs), k, step, total - used)
    {
      var next, cost :- Descend(data, dirs, k, root, step, index, before, live, p, used, total);
      root, step := next.0, next.1;
      used := used + cost;
      k := k + 1;
    }
    WalkEnd(LevelsOf(data, dirs), root, index, step);
    q := SetLeaf(data, dirs, root, step, value, index, before, live, p, used, total);
  }

  /** The rest of the walk, from depth `k` on, still has at most `left` pages to duplicate. */
  ghost predicate ToCome<T>(now: Levels<T>, k: nat, step: Step, left: int) {
    k <= Height(now) && Shared(Sub(now, k), step.ptr, step.off, step.off + 1) <= left
  }

  /** What remains after the page at depth `k` was made the walk's own. */
  lemma NextToCome<T>(tree: Levels<T>, now: Levels<T>, live: multiset<Ptr>, root: Ptr, index: nat, k: nat, ptr: Ptr,
                      q: Ptr,
                      step: Step, off: nat, divisor: nat, left: int)
    requires k < Height(now) && Height(tree) == Height(now) && Sound(now, live) && root in live && index < Size(now)
    requires Sub(now, k).Node? && Opened(Sub(tree, k), Sub(now, k), ptr, q)
    requires ToCome(tree, k, step, left) && step.ptr == ptr && step.off == off && divisor == Span(Sub(now, k))
    requires q == PtrAt(now, root, index, k) && off == OffAt(now, index, k)
    ensures var e := PageOf(off, divisor);
      && e < |Sub(now, k).dir.cells[q].item|
      && ToCome(now, k + 1, Step(EntryOfPage(q, e), Sub(now, k).dir.cells[q].item[e], OffsetOf(off, divisor),
        divisor / PAGE_SIZE),
                left - PageCost(Sub(tree, k), ptr))
  {
    hide Sound, PageOf, OffsetOf, Shared, SharedIn, Size, Start;
    var sub := Sub(now, k);
    PathSound(now, live, root, index, k);
    WalkStep(sub.dir, sub.below, LiveBelow(now, live, k), q, off);
    var e := PageOf(off, divisor);
    EntryOf(off, divisor, PAGE_SIZE);
    StartIsProduct(sub.below, e);
    SharedCut(sub.below, sub.dir.cells[q].item, e, off, off + 1);
    SubNext(now, k);
  }

  lemma {:induction false} SubNext<T>(lv: Levels<T>, k: nat)
    requires k < Height(lv)
    ensures Sub(lv, k).Node? && Sub(lv, k + 1) == Sub(lv, k).below
  {
    if k > 0 {
      SubNext(lv.below, k - 1);
    }
  }

  /** One level down; gives the new name of the whole tree and where the walk is now. */
  method Descend<T>(data: Table<seq<T>>, dirs: seq<Table<seq<Ptr>>>, k: nat, root: Ptr, step: Step,
                    ghost index: nat, ghost before: Levels<T>, ghost live: multiset<Ptr>, ghost p: Ptr,
                    ghost used: nat, ghost total: nat)
    returns (r: Outcome<(Ptr, Step)>, ghost cost: nat)
    requires Separate(data, dirs) && AllValid(data, dirs) && k < |dirs| && p in live
    requires Sound(LevelsOf(data, dirs), live - multiset{p} + multiset{root})
    requires Renamed(before, LevelsOf(data, dirs), live, p, root)
    requires WalkAt(LevelsOf(data, dirs), root, index, k, step)
    requires PagesPaid(before, LevelsOf(data, dirs), used) && ToCome(LevelsOf(data, dirs), k, step, total - used)
    modifies data, dirs
    ensures AllValid(data, dirs) && (r.Overflow? ==> OutOfRoom(LevelsOf(data, dirs)))
    ensures PagesFit(before, total) ==> r.Done?
    ensures r.Done? ==>
      && PagesPaid(before, LevelsOf(data, dirs), used + cost)
      && ToCome(LevelsOf(data, dirs), k + 1, r.value.1, total - used - cost)
    ensures r.Done? ==>
      && Sound(LevelsOf(data, dirs), live - multiset{p} + multiset{r.value.0})
      && Renamed(before, LevelsOf(data, dirs), live, p, r.value.0)
      && WalkAt(LevelsOf(data, dirs), r.value.0, index, k + 1, r.value.1)
  {
    hide Sound, Wrote, Renamed, LevelsOf, WellFormed, Size, Height, PageOf, OffsetOf, Separate, Owned, PtrAt, OffAt,
         Sub, SlotAt,
         AllValid, OutOfRoom, PagesFit, PagesPaid, ToCome, Opened, PageCost;
    ghost var tree := LevelsOf(data, dirs);
    ghost var live' := live - multiset{p} + multiset{root};
    cost := PageCost(Sub(tree, k), step.ptr);
    StepCost(tree, k, step, total - used);
    PagesPaidFit(before, tree, used, cost, total);
    var own :- OwnLevel(data, dirs, k, step.slot, root, step.ptr, step.off, index, live');
    var (root', q) := own;
    ghost var tree' := LevelsOf(data, dirs);
    WroteTop(tree, tree', live', root, root', index, []);
    WroteRenamed(before, tree, tree', live, p, root, root', index, []);
    assert live' - multiset{root} + multiset{root'} == live - multiset{p} + multiset{root'};
    SubAt(data, dirs, k);
    SpanAt(tree, tree', k);
    WalkNext(tree', live - multiset{p} + multiset{root'}, root', index, k, q, step.off, step.divisor);
    PagesPaidTrans(before, tree, tree', used, cost);
    NextToCome(tree, tree', live - multiset{p} + multiset{root'}, root', index, k, step.ptr, q, step, step.off,
      step.divisor,
               total - used);
    var page := dirs[k].GetItem(q);
    var e := PageOf(step.off, step.divisor);
    r := Done((root', Step(EntryOfPage(q, e), page[e], OffsetOf(step.off, step.divisor), step.divisor / PAGE_SIZE)));
  }

  lemma StepCost<T>(lv: Levels<T>, k: nat, step: Step, left: int)
    requires ToCome(lv, k, step, left)
    ensures PageCost(Sub(lv, k), step.ptr) <= left
  {
    CostWithin(Sub(lv, k), multiset{}, step.ptr, step.off, step.off + 1);
  }

  lemma SubAt<T>(data: Table<seq<T>>, dirs: seq<Table<seq<Ptr>>>, k: nat)
    requires AllValid(data, dirs) && k < |dirs|
    ensures dirs[k].Valid() && Sub(LevelsOf(data, dirs), k).Node? && Sub(LevelsOf(data, dirs), k).dir == dirs[k].Value()
    ensures Height(Sub(LevelsOf(data, dirs), k)) == |dirs| - k
  {
  }

  lemma {:induction false} SpanAt<T>(a: Levels<T>, b: Levels<T>, k: nat)
    requires Height(a) == Height(b) && k <= Height(a)
    ensures Span(Sub(a, k)) == Span(Sub(b, k)) && Height(Sub(a, k)) == Height(Sub(b, k)) == Height(a) - k
  {
    if k > 0 {
      SpanAt(a.below, b.below, k - 1);
    } else if a.Node? {
      SizeFromHeight(a.below, b.below);
    }
  }

  /** The last turn: makes the data page the caller's own and writes the item. */
  method SetLeaf<T>(data: Table<seq<T>>, dirs: seq<Table<seq<Ptr>>>, root: Ptr, step: Step, value: T,
                    ghost index: nat, ghost before: Levels<T>, ghost live: multiset<Ptr>, ghost p: Ptr,
                    ghost used: nat, ghost total: nat) returns (r: Outcome<Ptr>)
    requires Separate(data, dirs) && AllValid(data, dirs) && p in live
    requires Sound(LevelsOf(data, dirs), live - multiset{p} + multiset{root})
    requires Renamed(before, LevelsOf(data, dirs), live, p, root)
    requires WalkAt(LevelsOf(data, dirs), root, index, |dirs|, step) && step.divisor == 1
    requires PagesPaid(before, LevelsOf(data, dirs), used) && ToCome(LevelsOf(data, dirs), |dirs|, step, total - used)
    modifies data, dirs
    ensures AllValid(data, dirs) && (r.Overflow? ==> OutOfRoom(LevelsOf(data, dirs)))
    ensures PagesFit(before, total) ==> r.Done?
    ensures r.Done? ==>
      Wrote(before, LevelsOf(data, dirs), live, p, r.value, index, [value])
        && PagesPaid(before, LevelsOf(data, dirs), total)
  {
    hide Sound, Wrote, Renamed, Owned, PtrAt, OffAt, Plug, Build, WellFormed, Size, Height, Sub, LiveBelow, SlotAt,
         OutOfRoom,
         PagesFit, PagesPaid, Tame, Shared, LevelsOf;
    ghost var tree := LevelsOf(data, dirs);
    ghost var live' := live - multiset{p} + multiset{root};
    ghost var slabs, pages := Values(dirs), data.Value();
    var k := |dirs|;
    LevelsOfBuild(data, dirs);
    LevelsOfSub(data, dirs, k);
    PathSound(tree, live', root, index, k);
    LeafSize(pages);
    SubLeaf(data, dirs);
    ghost var cost := Shared(Leaf(pages), step.ptr, step.off, step.off + 1);
    PagesPaidFit(before, tree, used, cost, total);
    PagesFitSub(tree, k, cost);
    var own := WriteData(data, step.ptr, step.off, [value], LiveBelow(tree, live', k));
    assert AllValid(data, dirs) && Values(dirs) == slabs;
    SubLeaf(data, dirs);
    if own.Overflow? {
      LevelsOfSub(data, dirs, k);
      OutOfRoomBelow(LevelsOf(data, dirs), k);
      return Overflow;
    }
    var q := own.value;
    ghost var sub := LevelsOf(data, dirs[k..]);
    WroteTop(Sub(tree, k), sub, LiveBelow(tree, live', k), step.ptr, q, step.off, [value]);
    var root' := Assign(data, dirs, k, step.slot, root, q, slabs, pages, index);
    PlugWrote(tree, live', root, index, k, q, sub, [value]);
    WroteRenamed(before, tree, LevelsOf(data, dirs), live, p, root, root', index, [value]);
    PlugPaid(tree, root, index, k, q, sub, cost);
    PagesPaidTrans(before, tree, LevelsOf(data, dirs), used, cost);
    PagesPaidMore(before, LevelsOf(data, dirs), used + cost, total);
    r := Done(root');
  }

  lemma SubLeaf<T>(data: Table<seq<T>>, dirs: seq<Table<seq<Ptr>>>)
    requires AllValid(data, dirs)
    ensures AllValid(data, dirs[|dirs|..]) && LevelsOf(data, dirs[|dirs|..]) == Leaf(data.Value())
  {
  }

  lemma LeafSize<T>(data: Slab<seq<T>>)
    ensures Size(Leaf(data)) == PAGE_SIZE
  {
  }

  /** The table at depth `k` on top of those below it. */
  lemma SeparateAt<T>(data: Table<seq<T>>, dirs: seq<Table<seq<Ptr>>>, k: nat)
    requires Separate(data, dirs) && AllValid(data, dirs) && k < |dirs|
    ensures OnTop(dirs[k], data, dirs[k + 1..])
    ensures TreeOf(dirs[k], data, dirs[k + 1..]) == LevelsOf(data, dirs[k..])
    ensures forall i :: 0 <= i < k ==> dirs[i] !in dirs[k..] && dirs[i] as object != data as object
  {
  }

  lemma AllValidAgain<T>(data: Table<seq<T>>, dirs: seq<Table<seq<Ptr>>>, k: nat, slabs: seq<Slab<seq<Ptr>>>)
    requires k < |dirs| == |slabs| && OnTop(dirs[k], data, dirs[k + 1..])
    requires forall i :: 0 <= i < k ==> dirs[i].Valid() && dirs[i].Value() == slabs[i]
    ensures AllValid(data, dirs) && slabs[..k] == Values(dirs)[..k]
    ensures TreeOf(dirs[k], data, dirs[k + 1..]) == LevelsOf(data, dirs[k..])
  {
  }
}
