/** Conservation of references: all counts of a tree together, against the pointers that its own pages hold. */
module Balances {
  import opened Options
  import opened Slabs
  import opened RadixTree
  import opened Rooms

  // ---------- One slab ----------

  function CellRefs<T>(c: Cell<T>): nat {
    if c.Used? then c.refs else 0
  }

  /** The sum of all reference counts. */
  function RefSum<T>(cells: seq<Cell<T>>): nat {
    if cells == [] then 0 else RefSum(cells[..|cells| - 1]) + CellRefs(cells[|cells| - 1])
  }

  lemma {:induction false} RefSumUpdate<T>(cells: seq<Cell<T>>, i: nat, c: Cell<T>)
    requires i < |cells|
    ensures RefSum(cells[i := c]) + CellRefs(cells[i]) == RefSum(cells) + CellRefs(c)
  {
    var n := |cells| - 1;
    if i < n {
      assert cells[i := c][..n] == cells[..n][i := c];
      RefSumUpdate(cells[..n], i, c);
    } else {
      assert cells[i := c][..n] == cells[..n];
    }
  }

  lemma RefSumAppend<T>(cells: seq<Cell<T>>, c: Cell<T>)
    ensures RefSum(cells + [c]) == RefSum(cells) + CellRefs(c)
  {
    assert (cells + [c])[..|cells|] == cells;
  }

  lemma AddItemSum<T>(s: Slab<T>, item: T)
    requires s.nextEmpty <= |s.cells|
    requires s.nextEmpty < |s.cells| ==> s.cells[s.nextEmpty].Empty?
    ensures RefSum(AddItem(s, item).0.cells) == RefSum(s.cells) + 1
  {
    if s.nextEmpty == |s.cells| {
      RefSumAppend(s.cells, Used(1, item));
    } else {
      RefSumUpdate(s.cells, s.nextEmpty, Used(1, item));
    }
  }

  lemma AddRefSum<T>(s: Slab<T>, p: Ptr)
    requires InUse(s, p)
    ensures RefSum(AddRef(s, p).cells) == RefSum(s.cells) + 1
  {
    RefSumUpdate(s.cells, p, AddRef(s, p).cells[p]);
  }

  lemma RemoveRefSum<T>(s: Slab<T>, p: Ptr)
    requires InUse(s, p) && s.cells[p].refs >= 1
    ensures RefSum(RemoveRef(s, p).cells) == RefSum(s.cells) - 1
  {
    RefSumUpdate(s.cells, p, RemoveRef(s, p).cells[p]);
  }

  lemma SetItemSum<T>(s: Slab<T>, p: Ptr, item: T)
    requires InUse(s, p)
    ensures RefSum(SetItem(s, p, item).cells) == RefSum(s.cells)
  {
    RefSumUpdate(s.cells, p, SetItem(s, p, item).cells[p]);
  }

  lemma ShadowSum<T>(s: Slab<T>, p: Ptr)
    requires WellFormed(s) && InUse(s, p) && s.cells[p].refs > 1
    ensures s.nextEmpty <= |s.cells|
    ensures s.nextEmpty < |s.cells| ==> s.cells[s.nextEmpty].Empty?
    ensures RefSum(Shadow(s, p).0.cells) == RefSum(s.cells)
  {
    AddItemKeeps(s, s.cells[p].item);
    AddItemSum(s, s.cells[p].item);
    RemoveRefSum(AddItem(s, s.cells[p].item).0, p);
  }

  /** The counts went down by one for each pointer in `gone`. */
  lemma {:induction false} SumDropped<T>(before: seq<Cell<T>>, after: seq<Cell<T>>, gone: multiset<Ptr>)
    requires |after| == |before| && forall p :: p in gone ==> p < |before|
    requires forall p :: 0 <= p < |before| ==> CellRefs(after[p]) + gone[p] == CellRefs(before[p])
    ensures RefSum(after) + |gone| == RefSum(before)
  {
    if before == [] {
      assert gone == multiset{};
    } else {
      var n := |before| - 1;
      var rest := gone[n := 0];
      assert |rest| + gone[n] == |gone| by { assert gone == rest[n := gone[n]]; }
      SumDropped(before[..n], after[..n], rest);
    }
  }

  lemma SlabClonedSum<T>(s: Slab<T>, ms: multiset<Ptr>)
    requires forall p :: p in ms ==> InUse(s, p)
    ensures RefSum(SlabCloned(s, ms).cells) == RefSum(s.cells) + |ms|
  {
    SumDropped(SlabCloned(s, ms).cells, s.cells, ms);
  }

  /** Counts that cover the live pointers add up to as many at least, and to just as many exactly when each
      count is the number of live pointers to its slot. */
  lemma {:induction false} SumCovers<T>(cells: seq<Cell<T>>, live: multiset<Ptr>)
    requires forall p :: p in live ==> p < |cells| && live[p] <= CellRefs(cells[p])
    ensures RefSum(cells) >= |live|
    ensures RefSum(cells) == |live| <==> forall p :: 0 <= p < |cells| ==> CellRefs(cells[p]) == live[p]
  {
    if cells == [] {
      assert live == multiset{};
    } else {
      var n := |cells| - 1;
      var rest := live[n := 0];
      assert |rest| + live[n] == |live| by { assert live == rest[n := live[n]]; }
      forall p | p in rest ensures p < n && rest[p] <= CellRefs(cells[..n][p]) {
        assert p in live;
      }
      SumCovers(cells[..n], rest);
      assert n in live ==> live[n] <= CellRefs(cells[n]);
      assert forall p :: 0 <= p < n ==> cells[..n][p] == cells[p] && rest[p] == live[p];
    }
  }

  // ---------- All tables ----------

  /** All counts, less the pointers that are held by pages of page tables. */
  function Balance<T>(lv: Levels<T>): int {
    match lv
    case Leaf(data) => RefSum(data.cells)
    case Node(dir, below) => RefSum(dir.cells) - |Entries(dir.cells)| + Balance(below)
  }

  /** Every count is exactly the number of pointers to its slot, the live ones and those in pages: no page
      is kept that nothing points to. */
  ghost predicate Exact<T>(lv: Levels<T>, live: multiset<Ptr>) {
    match lv
    case Leaf(data) => forall p :: 0 <= p < |data.cells| ==> CellRefs(data.cells[p]) == live[p]
    case Node(dir, below) =>
      && (forall p :: 0 <= p < |dir.cells| ==> CellRefs(dir.cells[p]) == live[p])
      && Exact(below, Entries(dir.cells))
  }

  /** A tree has at least as many references as live pointers, and just as many exactly when nothing leaks. */
  lemma {:induction false} BalanceIsExact<T>(lv: Levels<T>, live: multiset<Ptr>)
    requires Sound(lv, live)
    ensures Balance(lv) >= |live| && (Balance(lv) == |live| <==> Exact(lv, live))
  {
    hide WellFormed, PagesFull, RefSum, Entries;
    match lv
    case Leaf(data) => SumCovers(data.cells, live);
    case Node(dir, below) =>
      SumCovers(dir.cells, live);
      BalanceIsExact(below, Entries(dir.cells));
  }

  lemma ClonedBalance<T>(lv: Levels<T>, ms: multiset<Ptr>)
    requires forall p :: p in ms ==> TopInUse(lv, p)
    ensures Balance(Cloned(lv, ms)) == Balance(lv) + |ms|
  {
    match lv
    case Leaf(data) => SlabClonedSum(data, ms);
    case Node(dir, below) =>
      SlabClonedSum(dir, ms);
      ClonedEntries(dir.cells, SlabCloned(dir, ms).cells);
  }

  lemma {:induction false} ClonedEntries(a: seq<Cell<seq<Ptr>>>, b: seq<Cell<seq<Ptr>>>)
    requires |a| == |b| && forall p :: 0 <= p < |a| ==> CellPtrs(b[p]) == CellPtrs(a[p])
    ensures Entries(b) == Entries(a)
  {
    if a != [] {
      ClonedEntries(a[..|a| - 1], b[..|b| - 1]);
    }
  }

  lemma CloneTopBalance<T>(lv: Levels<T>, p: Ptr)
    requires TopInUse(lv, p)
    ensures Balance(CloneTop(lv, p)) == Balance(lv) + 1
  {
    ClonedOne(lv, p);
    ClonedBalance(lv, multiset{p});
  }

  // ---------- Writes ----------

  lemma ShadowLeafBalance<T>(data: Slab<seq<T>>, p: Ptr)
    requires WellFormed(data) && InUse(data, p) && data.cells[p].refs > 1
    ensures data.nextEmpty <= |data.cells|
    ensures data.nextEmpty < |data.cells| ==> data.cells[data.nextEmpty].Empty?
    ensures Balance(Leaf(Shadow(data, p).0)) == Balance(Leaf(data))
  {
    ShadowSum(data, p);
  }

  /** The copy of a page holds as many pointers as were added below it. */
  lemma ShadowNodeBalance<T>(dir: Slab<seq<Ptr>>, below: Levels<T>, p: Ptr)
    requires WellFormed(dir) && InUse(dir, p) && dir.cells[p].refs > 1
    requires forall c :: c in dir.cells[p].item ==> TopInUse(below, c)
    ensures dir.nextEmpty <= |dir.cells|
    ensures dir.nextEmpty < |dir.cells| ==> dir.cells[dir.nextEmpty].Empty?
    ensures Balance(Node(Shadow(dir, p).0, Cloned(below, multiset(dir.cells[p].item)))) == Balance(Node(dir, below))
  {
    hide Shadow, Cloned, Entries, RefSum, TopInUse;
    ShadowSum(dir, p);
    ShadowEntries(dir, p);
    ClonedBalance(below, multiset(dir.cells[p].item));
  }

  lemma WriteEntryBalance<T>(dir: Slab<seq<Ptr>>, below: Levels<T>, below': Levels<T>, p: Ptr, page: seq<Ptr>)
    requires InUse(dir, p) && |page| == |dir.cells[p].item| && Balance(below') == Balance(below)
    ensures Balance(Node(SetItem(dir, p, page), below')) == Balance(Node(dir, below))
  {
    hide Entries, RefSum;
    SetItemSum(dir, p, page);
    var c := SetItem(dir, p, page).cells[p];
    EntriesUpdate(dir.cells, p, c);
    assert |Entries(SetItem(dir, p, page).cells) + CellPtrs(dir.cells[p])| == |Entries(dir.cells) + CellPtrs(c)|;
  }

  // ---------- New pages ----------

  lemma AddNodeBalance<T>(dir: Slab<seq<Ptr>>, below: Levels<T>, page: seq<Ptr>)
    requires WellFormed(dir)
    ensures dir.nextEmpty <= |dir.cells|
    ensures dir.nextEmpty < |dir.cells| ==> dir.cells[dir.nextEmpty].Empty?
    ensures Balance(Node(AddItem(dir, page).0, below)) == Balance(Node(dir, below)) + 1 - |page|
  {
    hide Entries, RefSum;
    AddItemKeeps(dir, page);
    AddItemSum(dir, page);
    AddItemEntries(dir, page);
  }

  // ---------- What writes take ----------

  /** No more was taken than for `n` pages, and every reference that was made belongs to a pointer. */
  ghost predicate PagesPaid<T>(a: Levels<T>, b: Levels<T>, n: nat) {
    PagesGrew(a, b, n) && Balance(b) == Balance(a)
  }

  lemma PagesPaidRefl<T>(lv: Levels<T>)
    ensures PagesPaid(lv, lv, 0)
  {
    PagesGrewRefl(lv);
  }

  lemma PagesPaidTrans<T>(a: Levels<T>, b: Levels<T>, c: Levels<T>, n: nat, m: nat)
    requires PagesPaid(a, b, n) && PagesPaid(b, c, m)
    ensures PagesPaid(a, c, n + m)
  {
    PagesGrewTrans(a, b, c, n, m);
  }

  lemma PagesPaidMore<T>(a: Levels<T>, b: Levels<T>, n: nat, m: nat)
    requires PagesPaid(a, b, n) && n <= m
    ensures PagesPaid(a, b, m)
  {
    PagesGrewMore(a, b, n, m);
  }

  /** With `n` of `total` pages taken, `m` more still fit. */
  lemma PagesPaidFit<T>(a: Levels<T>, b: Levels<T>, n: nat, m: nat, total: nat)
    requires PagesPaid(a, b, n) && n + m <= total
    ensures PagesFit(a, total) ==> PagesFit(b, m)
  {
    PagesFitAfter(a, b, n, m, total);
  }
}
