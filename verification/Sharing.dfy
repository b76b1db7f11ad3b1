/** The pages that a write duplicates: those on its way that are shared. A page with one owner is
    written in place. */
module Sharings {
  import opened Options
  import opened Slabs
  import opened RadixTree
  import opened Rooms
  import opened Balances
  import opened Chunks

  function Max(a: int, b: int): int {
    if a >= b then a else b
  }

  // ---------- Pages on the way ----------

  /** Number of pages that a write of the positions from `lo` to `hi` meets in a tree of height `h`. */
  function Touched(h: nat, lo: nat, hi: nat): nat
    decreases h, 0, 0
  {
    if h == 0 then 1 else 1 + TouchedIn(h - 1, PAGE_SIZE, lo, hi)
  }

  /** The same for a row of `n` trees. The positions of a tree that lies before or after the run are
      not met; an empty run inside a tree meets that tree. */
  function TouchedIn(h: nat, n: nat, lo: int, hi: int): nat
    decreases h, 1, n
  {
    if n == 0 then 0
    else
      var size := Power64(h + 1);
      (if lo < size && 0 < hi then Touched(h, Max(lo, 0), Min(hi, size)) else 0)
      + TouchedIn(h, n - 1, lo - size, hi - size)
  }

  /** Number of pages of all sizes, up to those of height `h`, that hold part of a run, by division. */
  function PagesAcross(h: nat, lo: nat, hi: nat): int {
    DivCeil(hi, Power64(h + 1)) - lo / Power64(h + 1) + if h == 0 then 0 else PagesAcross(h - 1, lo, hi)
  }

  lemma Shift(x: nat, c: nat, d: nat)
    requires d > 0
    ensures (x + c * d) / d == x / d + c && DivCeil(x + c * d, d) == DivCeil(x, d) + c
  {
    Quotient(x, d);
    var q, r := x / d, x - (x / d) * d;
    assert x + c * d == (q + c) * d + r;
    DivisionIsUnique(x + c * d, d, q + c, r);
    DivisionIsUnique(x, d, q, r);
  }

  lemma DivisionIsUnique(x: nat, d: nat, q: nat, r: nat)
    requires x == q * d + r && r < d
    ensures x / d == q && x % d == r
  {
    var q', r' := x / d, x % d;
    assert q' * d + r' == x;
    assert (q + 1) * d == q * d + d && (q' + 1) * d == q' * d + d;
    if q < q' {
      ProductMonotone(q + 1, q', d);
    } else if q' < q {
      ProductMonotone(q' + 1, q, d);
    }
  }

  /** Moving a run by whole pages of height `h`. */
  lemma {:induction false} AcrossShift(h: nat, c: nat, lo: nat, hi: nat)
    ensures PagesAcross(h, lo + c * Power64(h + 1), hi + c * Power64(h + 1)) == PagesAcross(h, lo, hi)
  {
    hide DivCeil;
    Shift(lo, c, Power64(h + 1));
    Shift(hi, c, Power64(h + 1));
    if h > 0 {
      WholePages(h, c);
      AcrossShift(h - 1, c * PAGE_SIZE, lo, hi);
    }
  }

  /** Cutting a run between whole pages of height `h`. */
  lemma {:induction false} AcrossJoin(h: nat, c: nat, lo: nat, hi: nat)
    ensures PagesAcross(h, lo, c * Power64(h + 1)) + PagesAcross(h, 0, hi)
      == PagesAcross(h, lo, hi + c * Power64(h + 1))
  {
    hide DivCeil;
    var d := Power64(h + 1);
    Shift(hi, c, d);
    Shift(0, c, d);
    NoPages(d);
    assert 0 + c * d == c * d;
    if h > 0 {
      WholePages(h, c);
      AcrossJoin(h - 1, c * PAGE_SIZE, lo, hi);
    }
  }

  lemma NoPages(d: nat)
    requires d > 0
    ensures DivCeil(0, d) == 0 && 0 / d == 0
  {
  }

  lemma WholePages(h: nat, c: nat)
    requires h > 0
    ensures c * Power64(h + 1) == c * PAGE_SIZE * Power64(h)
  {
  }

  lemma {:induction false} TouchedOutside(h: nat, n: nat, lo: int, hi: int)
    requires hi <= 0
    ensures TouchedIn(h, n, lo, hi) == 0
    decreases n
  {
    if n > 0 {
      TouchedOutside(h, n - 1, lo - Power64(h + 1), hi - Power64(h + 1));
    }
  }

  lemma {:induction false} TouchedFromStart(h: nat, n: nat, lo: int, hi: int)
    requires lo <= 0
    ensures TouchedIn(h, n, lo, hi) == TouchedIn(h, n, 0, hi)
    decreases n
  {
    if n > 0 {
      var size: int := Power64(h + 1);
      TouchedFromStart(h, n - 1, lo - size, hi - size);
      TouchedFromStart(h, n - 1, 0 - size, hi - size);
    }
  }

  /** The walk over the pages meets exactly those that hold part of the run. */
  lemma {:induction false} TouchedIsAcross(h: nat, n: nat, lo: nat, hi: nat)
    requires lo <= hi <= n * Power64(h + 1)
    ensures TouchedIn(h, n, lo, hi) == PagesAcross(h, lo, hi)
    decreases h, n
  {
    hide Touched, PagesAcross, DivCeil, Power64;
    var size := Power64(h + 1);
    if hi == 0 {
      TouchedOutside(h, n, lo, hi);
      NothingAcross(h);
    } else {
      assert n > 0 && n * size == (n - 1) * size + size;
      if lo >= size {
        TouchedIsAcross(h, n - 1, lo - size, hi - size);
        AcrossShift(h, 1, lo - size, hi - size);
      } else if hi <= size {
        TouchedOutside(h, n - 1, lo - size, hi - size);
        OneAcross(h, lo, hi);
      } else {
        OneAcross(h, lo, size);
        TouchedFromStart(h, n - 1, lo - size, hi - size);
        TouchedIsAcross(h, n - 1, 0, hi - size);
        AcrossJoin(h, 1, lo, hi - size);
      }
    }
  }

  lemma {:induction false} NothingAcross(h: nat)
    ensures PagesAcross(h, 0, 0) == 0
  {
    hide DivCeil;
    NoPages(Power64(h + 1));
    if h > 0 {
      NothingAcross(h - 1);
    }
  }

  /** A run inside one tree. */
  lemma {:induction false} OneAcross(h: nat, lo: nat, hi: nat)
    requires lo <= hi <= Power64(h + 1) && lo < Power64(h + 1) && hi > 0
    ensures Touched(h, lo, hi) == PagesAcross(h, lo, hi)
    decreases h, 0
  {
    hide DivCeil;
    var size := Power64(h + 1);
    DivCeilLeast(hi, size, 0);
    DivCeilLeast(hi, size, 1);
    DivisionIsUnique(lo, size, 0, lo);
    if h > 0 {
      TouchedIsAcross(h - 1, PAGE_SIZE, lo, hi);
    }
  }

  /** Number of shared pages on the way: below a shared page everything is shared. */
  function Shared<T>(lv: Levels<T>, p: Ptr, lo: nat, hi: nat): nat
    decreases lv, 0, 0
  {
    if TopRefs(lv, p) != 1 then Touched(Height(lv), lo, hi)
    else
      match lv
      case Leaf(_) => 0
      case Node(dir, below) => SharedIn(below, dir.cells[p].item, lo, hi)
  }

  /** The same for a row of trees. */
  function SharedIn<T>(lv: Levels<T>, ptrs: seq<Ptr>, lo: int, hi: int): nat
    decreases lv, 1, |ptrs|
  {
    if ptrs == [] then 0
    else
      var size := Size(lv);
      (if lo < size && 0 < hi then Shared(lv, ptrs[0], Max(lo, 0), Min(hi, size)) else 0)
      + SharedIn(lv, ptrs[1..], lo - size, hi - size)
  }

  lemma {:induction false} SharedAtMost<T>(lv: Levels<T>, live: multiset<Ptr>, p: Ptr, lo: nat, hi: nat)
    requires Sound(lv, live)
    ensures Shared(lv, p, lo, hi) <= Touched(Height(lv), lo, hi)
    decreases lv, 0, 0
  {
    if TopRefs(lv, p) == 1 && lv.Node? {
      SharedInAtMost(lv.below, Entries(lv.dir.cells), lv.dir.cells[p].item, lo, hi);
    }
  }

  lemma {:induction false} SharedInAtMost<T>(lv: Levels<T>, live: multiset<Ptr>, ptrs: seq<Ptr>, lo: int, hi: int)
    requires Sound(lv, live)
    ensures SharedIn(lv, ptrs, lo, hi) <= TouchedIn(Height(lv), |ptrs|, lo, hi)
    decreases lv, 1, |ptrs|
  {
    hide Sound, Shared, Touched, Power64;
    if ptrs != [] {
      SizeIsPower(lv);
      var size := Size(lv);
      if lo < size && 0 < hi {
        SharedAtMost(lv, live, ptrs[0], Max(lo, 0), Min(hi, size));
      }
      SharedInAtMost(lv, live, ptrs[1..], lo - size, hi - size);
    }
  }

  // ---------- Cutting a run ----------

  lemma {:induction false} SharedFromStart<T>(lv: Levels<T>, ptrs: seq<Ptr>, lo: int, hi: int)
    requires lo <= 0
    ensures SharedIn(lv, ptrs, lo, hi) == SharedIn(lv, ptrs, 0, hi)
    decreases |ptrs|
  {
    if ptrs != [] {
      SharedFromStart(lv, ptrs[1..], lo - Size(lv), hi - Size(lv));
      SharedFromStart(lv, ptrs[1..], 0 - Size(lv) as int, hi - Size(lv));
    }
  }

  /** What a run meets in the tree it starts in, and what it meets after that tree. */
  lemma {:induction false} SharedCut<T>(lv: Levels<T>, ptrs: seq<Ptr>, e: nat, lo: int, hi: int)
    requires e < |ptrs| && Start(lv, e) <= lo < Start(lv, e) + Size(lv) && Start(lv, e) < hi
    ensures var at := Start(lv, e);
      SharedIn(lv, ptrs, lo, hi)
      == Shared(lv, ptrs[e], lo - at, Min(hi - at, Size(lv))) + SharedIn(lv, ptrs, at + Size(lv), hi)
    decreases |ptrs|
  {
    hide Shared;
    var size := Size(lv);
    if e == 0 {
      SharedFromStart(lv, ptrs[1..], lo - size, hi - size);
    } else {
      assert ptrs[1..][e - 1] == ptrs[e];
      SharedCut(lv, ptrs[1..], e - 1, lo - size, hi - size);
    }
  }

  /** A write to tree `e` leaves the rest of the row no more shared than before. */
  lemma {:induction false} SharedAfter<T>(a: Levels<T>, b: Levels<T>, ptrs: seq<Ptr>, e: nat, c: Ptr, lo: int, hi: int)
    requires Height(a) == Height(b) && e < |ptrs| && Start(a, e) + Size(a) <= lo
    requires forall k, l: nat, h: nat :: 0 <= k < |ptrs| && k != e ==>
      Shared(b, ptrs[k], l, h) <= Shared(a, ptrs[k], l, h)
    ensures SharedIn(b, ptrs[e := c], lo, hi) <= SharedIn(a, ptrs, lo, hi)
    decreases |ptrs|
  {
    hide Shared;
    SizeFromHeight(a, b);
    var size := Size(a);
    var rest := ptrs[1..];
    assert forall k :: 0 <= k < |rest| ==> rest[k] == ptrs[k + 1];
    if e == 0 {
      assert ptrs[e := c][1..] == rest;
      SharedInLess(a, b, rest, lo - size, hi - size);
    } else {
      assert ptrs[e := c][1..] == rest[e - 1 := c];
      SharedAfter(a, b, rest, e - 1, c, lo - size, hi - size);
    }
  }

  lemma {:induction false} SharedInLess<T>(a: Levels<T>, b: Levels<T>, ptrs: seq<Ptr>, lo: int, hi: int)
    requires Height(a) == Height(b)
    requires forall k, l: nat, h: nat :: 0 <= k < |ptrs| ==> Shared(b, ptrs[k], l, h) <= Shared(a, ptrs[k], l, h)
    ensures SharedIn(b, ptrs, lo, hi) <= SharedIn(a, ptrs, lo, hi)
    decreases |ptrs|
  {
    hide Shared;
    SizeFromHeight(a, b);
    if ptrs != [] {
      var rest := ptrs[1..];
      assert forall k :: 0 <= k < |rest| ==> rest[k] == ptrs[k + 1];
      SharedInLess(a, b, rest, lo - Size(a), hi - Size(a));
    }
  }

  // ---------- What writes leave shared ----------

  /** A write through another pointer makes no page of these trees more shared. */
  ghost predicate Tame<T>(a: Levels<T>, b: Levels<T>, live: multiset<Ptr>) {
    forall q, lo: nat, hi: nat :: q in live ==> Shared(b, q, lo, hi) <= Shared(a, q, lo, hi)
  }

  lemma TameTrans<T>(a: Levels<T>, b: Levels<T>, c: Levels<T>, live: multiset<Ptr>)
    requires Tame(a, b, live) && Tame(b, c, live)
    ensures Tame(a, c, live)
  {
    hide Shared;
    forall q, lo: nat, hi: nat | q in live ensures Shared(c, q, lo, hi) <= Shared(a, q, lo, hi) {
      assert Shared(b, q, lo, hi) <= Shared(a, q, lo, hi);
    }
  }

  /** Duplicating a shared data page. */
  lemma ShadowLeafTame<T>(data: Slab<seq<T>>, live: multiset<Ptr>, p: Ptr)
    requires Sound(Leaf(data), live) && p in live && data.cells[p].refs > 1
    ensures data.nextEmpty <= |data.cells|
    ensures data.nextEmpty < |data.cells| ==> data.cells[data.nextEmpty].Empty?
    ensures Tame(Leaf(data), Leaf(Shadow(data, p).0), live - multiset{p})
  {
    ShadowKeeps(data, live, p);
  }

  /** Overwriting a data page in place. */
  lemma WriteLeafTame<T>(data: Slab<seq<T>>, live: multiset<Ptr>, p: Ptr, page: seq<T>)
    requires InUse(data, p)
    ensures Tame(Leaf(data), Leaf(SetItem(data, p, page)), live)
  {
  }

  /** Sharing the trees named by `ms` leaves those of other pointers, and those shared anyway, as they are. */
  lemma ClonedShared<T>(lv: Levels<T>, ms: multiset<Ptr>, q: Ptr, lo: nat, hi: nat)
    requires q !in ms || TopRefs(lv, q) >= 2
    ensures Shared(Cloned(lv, ms), q, lo, hi) == Shared(lv, q, lo, hi)
  {
  }

  lemma HeldTwice(dir: Slab<seq<Ptr>>, p: Ptr, q: Ptr, c: Ptr)
    requires InUse(dir, p) && InUse(dir, q) && p != q && c in dir.cells[p].item && c in dir.cells[q].item
    ensures Entries(dir.cells)[c] >= 2
  {
    EntriesElsewhere(dir.cells, p, q);
    assert c in CellPtrs(dir.cells[p]) && c in CellPtrs(dir.cells[q]);
  }

  /** Duplicating a shared page-table page, after one extra reference was taken for each of its entries. */
  lemma ShadowNodeTame<T>(dir: Slab<seq<Ptr>>, below: Levels<T>, live: multiset<Ptr>, p: Ptr)
    requires Sound(Node(dir, below), live) && p in live && dir.cells[p].refs > 1
    requires var page := multiset(dir.cells[p].item); Sound(Cloned(below, page), Entries(dir.cells) + page)
    ensures dir.nextEmpty <= |dir.cells|
    ensures dir.nextEmpty < |dir.cells| ==> dir.cells[dir.nextEmpty].Empty?
    ensures var below' := Cloned(below, multiset(dir.cells[p].item));
      Tame(Node(dir, below), Node(Shadow(dir, p).0, below'), live - multiset{p})
  {
    hide Sound, Shared, Cloned, Entries, Shadow, WellFormed;
    NodeIsSound(dir, below, live);
    ShadowKeeps(dir, live, p);
    forall q, lo: nat, hi: nat | q in live - multiset{p}
      ensures Shared(Node(Shadow(dir, p).0, Cloned(below, multiset(dir.cells[p].item))), q, lo, hi)
           <= Shared(Node(dir, below), q, lo, hi)
    {
      if q == p {
        ShadowItself(dir, below, live, p, lo, hi);
      } else {
        ShadowOther(dir, p, q);
        OtherShared(dir, below, p, q, Shadow(dir, p).0, lo, hi);
      }
    }
  }

  lemma NodeIsSound<T>(dir: Slab<seq<Ptr>>, below: Levels<T>, live: multiset<Ptr>)
    requires Sound(Node(dir, below), live)
    ensures WellFormed(dir) && PagesFull(dir) && Covers(dir, live) && Sound(below, Entries(dir.cells))
  {
  }

  lemma ShadowItself<T>(dir: Slab<seq<Ptr>>, below: Levels<T>, live: multiset<Ptr>, p: Ptr, lo: nat, hi: nat)
    requires
      && WellFormed(dir) && PagesFull(dir) && Covers(dir, live) && p in live && InUse(dir, p) && dir.cells[p].refs > 1
    requires var page := multiset(dir.cells[p].item); Sound(Cloned(below, page), Entries(dir.cells) + page)
    ensures dir.nextEmpty <= |dir.cells|
    ensures dir.nextEmpty < |dir.cells| ==> dir.cells[dir.nextEmpty].Empty?
    ensures Shared(Node(Shadow(dir, p).0, Cloned(below, multiset(dir.cells[p].item))), p, lo, hi)
         <= Shared(Node(dir, below), p, lo, hi)
  {
    hide Sound, Shared, Cloned, Entries, Shadow, WellFormed, Touched, TopInUse, Covers, PagesFull;
    var page := multiset(dir.cells[p].item);
    ShadowNodeSound(dir, Cloned(below, page), live, p);
    ClonedTop(below, page, p);
    SharedPage(dir, below, live, p, lo, hi);
    SharedAtMost(Node(Shadow(dir, p).0, Cloned(below, page)), live - multiset{p} + multiset{Shadow(dir, p).1}, p, lo,
                 hi);
  }

  lemma ShadowOther<X>(s: Slab<X>, p: Ptr, q: Ptr)
    requires WellFormed(s) && InUse(s, p) && s.cells[p].refs > 1 && InUse(s, q) && p != q
    ensures s.nextEmpty <= |s.cells|
    ensures s.nextEmpty < |s.cells| ==> s.cells[s.nextEmpty].Empty?
    ensures InUse(Shadow(s, p).0, q) && Shadow(s, p).0.cells[q] == s.cells[q]
  {
    NextEmptyIsFree(s);
  }

  /** A shared page on the way costs one page more than its entries do once they are shared. */
  lemma SharedPage<T>(dir: Slab<seq<Ptr>>, below: Levels<T>, live: multiset<Ptr>, p: Ptr, lo: nat, hi: nat)
    requires PagesFull(dir) && InUse(dir, p) && dir.cells[p].refs != 1
    requires var page := multiset(dir.cells[p].item); Sound(Cloned(below, page), Entries(dir.cells) + page)
    ensures var page := dir.cells[p].item;
      1 + SharedIn(Cloned(below, multiset(page)), page, lo, hi) <= Shared(Node(dir, below), p, lo, hi)
    ensures Shared(Node(dir, below), p, lo, hi) == Touched(Height(below) + 1, lo, hi)
  {
    hide Sound, Entries, SharedIn, Shared, TouchedIn;
    var page := dir.cells[p].item;
    ClonedTop(below, multiset(page), p);
    SharedInAtMost(Cloned(below, multiset(page)), Entries(dir.cells) + multiset(page), page, lo, hi);
    SharedTouched(Node(dir, below), p, lo, hi);
  }

  lemma SharedTouched<T>(lv: Levels<T>, p: Ptr, lo: nat, hi: nat)
    requires TopRefs(lv, p) != 1
    ensures Shared(lv, p, lo, hi) == Touched(Height(lv), lo, hi)
  {
  }

  /** A tree whose page has another owner than `p` is no more shared for what happens to the page at `p`. */
  lemma OtherShared<T>(dir: Slab<seq<Ptr>>, below: Levels<T>, p: Ptr, q: Ptr, t: Slab<seq<Ptr>>, lo: nat, hi: nat)
    requires Sound(below, Entries(dir.cells)) && InUse(dir, p) && InUse(dir, q) && p != q
    requires InUse(t, q) && t.cells[q] == dir.cells[q]
    ensures Shared(Node(t, Cloned(below, multiset(dir.cells[p].item))), q, lo, hi)
      == Shared(Node(dir, below), q, lo, hi)
  {
    hide Sound, Entries;
    var ms := multiset(dir.cells[p].item);
    var page := dir.cells[q].item;
    forall c | c in page ensures c !in ms || TopRefs(below, c) >= 2 {
      if c in ms {
        HeldTwice(dir, p, q, c);
        LiveRefs(below, Entries(dir.cells), c);
      }
    }
    ClonedTop(below, ms, q);
    ClonedSharedIn(below, ms, page, lo, hi);
  }

  lemma LiveRefs<T>(lv: Levels<T>, live: multiset<Ptr>, c: Ptr)
    requires Sound(lv, live) && c in live
    ensures TopRefs(lv, c) >= live[c]
  {
  }

  lemma {:induction false} ClonedSharedIn<T>(lv: Levels<T>, ms: multiset<Ptr>, ptrs: seq<Ptr>, lo: int, hi: int)
    requires forall c :: c in ptrs ==> c !in ms || TopRefs(lv, c) >= 2
    ensures SharedIn(Cloned(lv, ms), ptrs, lo, hi) == SharedIn(lv, ptrs, lo, hi)
    decreases |ptrs|
  {
    hide Shared, Cloned;
    if ptrs != [] {
      ClonedTop(lv, ms, 0);
      SizeFromHeight(lv, Cloned(lv, ms));
      var size := Size(lv);
      if lo < size && 0 < hi {
        ClonedShared(lv, ms, ptrs[0], Max(lo, 0), Min(hi, size));
      }
      ClonedSharedIn(lv, ms, ptrs[1..], lo - size, hi - size);
    }
  }

  /** Overwriting the tree below one entry of an owned page-table page. */
  lemma WriteEntryTame<T>(dir: Slab<seq<Ptr>>, below: Levels<T>, below': Levels<T>, live: multiset<Ptr>, p: Ptr, e: nat,
                          c: Ptr)
    requires Covers(dir, live) && p in live && dir.cells[p].refs == 1 && e < |dir.cells[p].item|
    requires Height(below') == Height(below) && Tame(below, below', Entries(dir.cells) - multiset{dir.cells[p].item[e]})
    ensures Tame(Node(dir, below), Node(SetItem(dir, p, dir.cells[p].item[e := c]), below'), live - multiset{p})
  {
    hide Entries, SharedIn;
    SoleOwner(dir, live, p);
    var t := SetItem(dir, p, dir.cells[p].item[e := c]);
    forall q, lo: nat, hi: nat | q in live - multiset{p}
      ensures Shared(Node(t, below'), q, lo, hi) <= Shared(Node(dir, below), q, lo, hi)
    {
      WriteOther(dir, below, below', p, e, q, lo, hi);
    }
  }

  lemma WriteOther<T>(dir: Slab<seq<Ptr>>, below: Levels<T>, below': Levels<T>, p: Ptr, e: nat, q: Ptr, lo: nat,
                      hi: nat)
    requires InUse(dir, p) && InUse(dir, q) && q != p && e < |dir.cells[p].item|
    requires Height(below') == Height(below) && Tame(below, below', Entries(dir.cells) - multiset{dir.cells[p].item[e]})
    ensures SharedIn(below', dir.cells[q].item, lo, hi) <= SharedIn(below, dir.cells[q].item, lo, hi)
  {
    hide Entries, Shared, SharedIn;
    var page := dir.cells[q].item;
    forall k | 0 <= k < |page| ensures page[k] in Entries(dir.cells) - multiset{dir.cells[p].item[e]} {
      OtherPageIsLive(dir, p, e, q, page[k]);
    }
    SharedInLess(below, below', page, lo, hi);
  }

  /** The entries after the written one are no more shared than before. */
  lemma WriteEntryAfter<T>(dir: Slab<seq<Ptr>>, below: Levels<T>, below': Levels<T>, p: Ptr, e: nat, c: Ptr, hi: int)
    requires InUse(dir, p) && e < |dir.cells[p].item|
    requires Height(below') == Height(below) && Tame(below, below', Entries(dir.cells) - multiset{dir.cells[p].item[e]})
    ensures var page, at := dir.cells[p].item, Start(below, e) + Size(below);
      SharedIn(below', page[e := c], at, hi) <= SharedIn(below, page, at, hi)
  {
    hide Entries, Shared, SharedIn;
    var page := dir.cells[p].item;
    forall k | 0 <= k < |page| && k != e ensures page[k] in Entries(dir.cells) - multiset{page[e]} {
      OtherEntryIsLive(dir, p, e, k);
    }
    SharedAfter(below, below', page, e, c, Start(below, e) + Size(below), hi);
  }

  // ---------- What a write costs ----------

  /** A write through `p` took room for `cost` pages, and made nothing else more shared. */
  ghost predicate Paid<T>(a: Levels<T>, b: Levels<T>, live: multiset<Ptr>, p: Ptr, cost: nat) {
    PagesPaid(a, b, cost) && Tame(a, b, live - multiset{p})
  }

  /** A page costs a page to duplicate if it is shared, and nothing if it has one owner. */
  function PageCost<T>(lv: Levels<T>, p: Ptr): nat {
    if TopRefs(lv, p) == 1 then 0 else 1
  }

  /** The page-table page at `p` is now at `q` and owned: what a write still has to duplicate below
      it is what it had to duplicate in all, less the cost of the page itself. */
  ghost predicate Opened<T>(a: Levels<T>, b: Levels<T>, p: Ptr, q: Ptr) {
    && b.Node? && InUse(b.dir, q)
    && forall lo: nat, hi: nat ::
         PageCost(a, p) + SharedIn(b.below, b.dir.cells[q].item, lo, hi) <= Shared(a, p, lo, hi)
  }

  lemma PaidRefl<T>(lv: Levels<T>, live: multiset<Ptr>, p: Ptr)
    ensures Paid(lv, lv, live, p, 0)
  {
    PagesPaidRefl(lv);
  }

  lemma PaidTrans<T>(a: Levels<T>, b: Levels<T>, c: Levels<T>, live: multiset<Ptr>, p: Ptr, q: Ptr, n: nat, m: nat)
    requires Paid(a, b, live, p, n) && Paid(b, c, live - multiset{p} + multiset{q}, q, m)
    ensures Paid(a, c, live, p, n + m)
  {
    hide Tame, PagesPaid;
    assert live - multiset{p} + multiset{q} - multiset{q} == live - multiset{p};
    PagesPaidTrans(a, b, c, n, m);
    TameTrans(a, b, c, live - multiset{p});
  }

  lemma PaidMore<T>(a: Levels<T>, b: Levels<T>, live: multiset<Ptr>, p: Ptr, n: nat, m: nat)
    requires Paid(a, b, live, p, n) && n <= m
    ensures Paid(a, b, live, p, m)
  {
    PagesPaidMore(a, b, n, m);
  }

  /** A duplicated data page. */
  lemma ShadowLeafPaid<T>(data: Slab<seq<T>>, live: multiset<Ptr>, p: Ptr)
    requires Sound(Leaf(data), live) && p in live && data.cells[p].refs > 1
    ensures data.nextEmpty <= |data.cells|
    ensures data.nextEmpty < |data.cells| ==> data.cells[data.nextEmpty].Empty?
    ensures Paid(Leaf(data), Leaf(Shadow(data, p).0), live, p, 1)
    ensures PagesFit(Leaf(data), 1) ==> HasSlot(data)
  {
    hide Shadow, Shared;
    ShadowLeafTame(data, live, p);
    ShadowGrew(data, p);
    ShadowLeafBalance(data, p);
    TreeGrewMore(Leaf(data), Leaf(Shadow(data, p).0), 1, 0, 1, PAGE_SIZE);
    if PagesFit(Leaf(data), 1) {
      FitsHasSlot(data, 1, PAGE_SIZE);
    }
  }

  lemma WriteLeafPaid<T>(data: Slab<seq<T>>, live: multiset<Ptr>, p: Ptr, page: seq<T>)
    requires InUse(data, p)
    ensures Paid(Leaf(data), Leaf(SetItem(data, p, page)), live, p, 0)
  {
    hide Shared;
    WriteLeafTame(data, live - multiset{p}, p, page);
    SetItemGrew(data, p, page);
    SetItemSum(data, p, page);
  }

  /** A duplicated page-table page. */
  lemma ShadowNodePaid<T>(dir: Slab<seq<Ptr>>, below: Levels<T>, live: multiset<Ptr>, p: Ptr)
    requires Sound(Node(dir, below), live) && p in live && InUse(dir, p) && dir.cells[p].refs > 1
    requires var page := multiset(dir.cells[p].item); Sound(Cloned(below, page), Entries(dir.cells) + page)
    ensures dir.nextEmpty <= |dir.cells|
    ensures dir.nextEmpty < |dir.cells| ==> dir.cells[dir.nextEmpty].Empty?
    ensures var (t, q) := Shadow(dir, p);
      var b := Node(t, Cloned(below, multiset(dir.cells[p].item)));
      Paid(Node(dir, below), b, live, p, 1) && Opened(Node(dir, below), b, p, q)
  {
    hide Sound, Shared, SharedIn, Cloned, Entries, Shadow, WellFormed, Tame, Most, Covers;
    NodeIsSound(dir, below, live);
    ShadowKeeps(dir, live, p);
    var (t, q) := Shadow(dir, p);
    var page := dir.cells[p].item;
    var a, b := Node(dir, below), Node(t, Cloned(below, multiset(page)));
    ShadowNodeTame(dir, below, live, p);
    ShadowGrew(dir, p);
    ClonedGrew(below, multiset(page));
    TreeGrewMore(below, b.below, 0, Most(multiset(page)), 1, PAGE_SIZE);
    PageInUse(dir, below, live, p);
    ShadowNodeBalance(dir, below, p);
    assert PagesPaid(a, b, 1);
    forall lo: nat, hi: nat ensures 1 + SharedIn(b.below, t.cells[q].item, lo, hi) <= Shared(a, p, lo, hi) {
      SharedPage(dir, below, live, p, lo, hi);
    }
  }

  lemma ShadowNodeFits<T>(dir: Slab<seq<Ptr>>, below: Levels<T>, page: seq<Ptr>)
    requires WellFormed(dir) && |page| == PAGE_SIZE
    ensures PagesFit(Node(dir, below), 1) ==> HasSlot(dir) && CloneFits(below, multiset(page))
  {
    if PagesFit(Node(dir, below), 1) {
      FitsHasSlot(dir, 1, PAGE_SIZE);
      TreeFitsClone(below, 1, PAGE_SIZE, multiset(page));
    }
  }

  /** A page that is owned already is opened as it is. */
  lemma OwnedOpened<T>(lv: Levels<T>, p: Ptr)
    requires lv.Node? && TopRefs(lv, p) == 1
    ensures Opened(lv, lv, p, p)
  {
  }

  lemma PagesFitBelow<T>(dir: Slab<seq<Ptr>>, below: Levels<T>, n: nat)
    ensures PagesFit(Node(dir, below), n) ==> PagesFit(below, n)
  {
  }

  /** A tree written below one entry of an owned page. */
  lemma WriteEntryPaid<T>(dir: Slab<seq<Ptr>>, below: Levels<T>, below': Levels<T>, live: multiset<Ptr>, p: Ptr, e: nat,
                          c: Ptr,
                          cost: nat)
    requires Covers(dir, live) && p in live && dir.cells[p].refs == 1 && e < |dir.cells[p].item|
    requires Height(below') == Height(below) && Paid(below, below', Entries(dir.cells), dir.cells[p].item[e], cost)
    ensures Paid(Node(dir, below), Node(SetItem(dir, p, dir.cells[p].item[e := c]), below'), live, p, cost)
  {
    hide Tame, Entries, TreeGrew, PagesPaid;
    var page: seq<Ptr> := dir.cells[p].item[e := c];
    WriteEntryTame(dir, below, below', live, p, e, c);
    WriteEntryPays(dir, below, below', p, page, cost);
  }

  lemma WriteEntryPays<T>(dir: Slab<seq<Ptr>>, below: Levels<T>, below': Levels<T>, p: Ptr, page: seq<Ptr>, n: nat)
    requires InUse(dir, p) && |page| == |dir.cells[p].item| && PagesPaid(below, below', n)
    ensures PagesPaid(Node(dir, below), Node(SetItem(dir, p, page), below'), n)
  {
    hide Balance;
    SetItemGrew(dir, p, page);
    WriteEntryBalance(dir, below, below', p, page);
  }

  /** Behind position `at`, the row below the page at `q` is no more shared than it was. */
  ghost predicate RestKept<T>(a: Levels<T>, b: Levels<T>, q: Ptr, at: nat) {
    && a.Node? && b.Node? && InUse(a.dir, q) && InUse(b.dir, q)
    && forall hi: int ::
         SharedIn(b.below, b.dir.cells[q].item, at, hi) <= SharedIn(a.below, a.dir.cells[q].item, at, hi)
  }

  lemma WriteEntryKeepsRest<T>(dir: Slab<seq<Ptr>>, below: Levels<T>, below': Levels<T>, p: Ptr, e: nat, c: Ptr)
    requires InUse(dir, p) && e < |dir.cells[p].item|
    requires Height(below') == Height(below) && Tame(below, below', Entries(dir.cells) - multiset{dir.cells[p].item[e]})
    ensures RestKept(Node(dir, below), Node(SetItem(dir, p, dir.cells[p].item[e := c]), below'), p,
      Start(below, e) + Size(below))
  {
    hide SharedIn, Tame, Entries;
    var page: seq<Ptr>, at := dir.cells[p].item[e := c], Start(below, e) + Size(below);
    forall hi: int ensures SharedIn(below', page, at, hi) <= SharedIn(below, dir.cells[p].item, at, hi) {
      WriteEntryAfter(dir, below, below', p, e, c, hi);
    }
  }
}
