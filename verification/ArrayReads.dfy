/** Reading paged arrays: one position, a run into a buffer, and a run as a lazy iterator. */
module ArrayReads {
  import opened Options
  import opened Slabs
  import opened Tables
  import opened RadixTree
  import opened Chunks
  import opened ArrayStorages

  /** Where the walk for position `index` goes from an inner page. */
  lemma WalkStep<T>(dir: Slab<seq<Ptr>>, below: Levels<T>, live: multiset<Ptr>, p: Ptr, index: nat)
    requires Sound(Node(dir, below), live) && p in live && index < Size(Node(dir, below))
    ensures var e, off := PageOf(index, Size(below)), OffsetOf(index, Size(below));
      && InUse(dir, p) && e < |dir.cells[p].item| && off < Size(below)
      && Sound(below, Entries(dir.cells)) && dir.cells[p].item[e] in Entries(dir.cells)
      && At(Node(dir, below), p, index) == At(below, dir.cells[p].item[e], off)
  {
    hide Sound, Entries;
    NodeParts(dir, below, live, p);
    var e, off := PageOf(index, Size(below)), OffsetOf(index, Size(below));
    EntryOf(index, Size(below), PAGE_SIZE);
    StartIsProduct(below, e);
    ThroughEntry(below, dir.cells[p].item, e, off);
    EntryIsLive(dir, p, e);
  }

  lemma LeafRead<T>(data: Slab<seq<T>>, live: multiset<Ptr>, p: Ptr, i: nat)
    requires Sound(Leaf(data), live) && p in live && i < Size(Leaf(data))
    ensures InUse(data, p) && i < |data.cells[p].item| && At(Leaf(data), p, i) == Some(data.cells[p].item[i])
  {
  }

  /** Walks down to the data page that holds position `index`. */
  method Get<T>(data: Table<seq<T>>, dirs: seq<Table<seq<Ptr>>>, p: Ptr, index: nat,
                ghost live: multiset<Ptr>) returns (value: T)
    requires Separate(data, dirs) && AllValid(data, dirs)
    requires Sound(LevelsOf(data, dirs), live) && p in live && index < Size(LevelsOf(data, dirs))
    ensures Some(value) == At(LevelsOf(data, dirs), p, index)
  {
    hide Sound, Entries, At, WellFormed, Size, PageOf, OffsetOf;
    ghost var tree := LevelsOf(data, dirs);
    var ptr, i: nat, divisor: nat := p, index, Power64(|dirs|);
    SpanIsPower(tree);
    ghost var live' := live;
    var k := 0;
    while k < |dirs|
      invariant 0 <= k <= |dirs|
      invariant AllValid(data, dirs[k..])
      invariant Sound(LevelsOf(data, dirs[k..]), live') && ptr in live'
      invariant divisor == Span(LevelsOf(data, dirs[k..])) && i < Size(LevelsOf(data, dirs[k..]))
      invariant At(LevelsOf(data, dirs[k..]), ptr, i) == At(tree, p, index)
    {
      assert dirs[k..][1..] == dirs[k + 1..];
      ghost var below := LevelsOf(data, dirs[k + 1..]);
      WalkStep(dirs[k].Value(), below, live', ptr, i);
      SpanOfChild(below);
      live' := Entries(dirs[k].Value().cells);
      var page := dirs[k].GetItem(ptr);
      ptr := page[PageOf(i, divisor)];
      i := OffsetOf(i, divisor);
      divisor := divisor / PAGE_SIZE;
      k := k + 1;
    }
    LeafRead(data.Value(), live', ptr, i);
    var page := data.GetItem(ptr);
    value := page[i];
  }

  // ---------- Runs of positions ----------

  /** Where a position of the run lies below entry `e` of the page the run passes through. */
  lemma RunStep<T>(dir: Slab<seq<Ptr>>, below: Levels<T>, live: multiset<Ptr>, p: Ptr, e: nat, at: nat, off: nat,
                   n: nat)
    requires Sound(Node(dir, below), live) && p in live && e < PAGE_SIZE
    requires Start(below, e) + off == at && off + n <= Size(below)
    ensures InUse(dir, p) && e < |dir.cells[p].item|
    ensures Sound(below, Entries(dir.cells)) && dir.cells[p].item[e] in Entries(dir.cells)
    ensures forall i: nat :: at <= i < at + n ==>
      At(Node(dir, below), p, i) == At(below, dir.cells[p].item[e], off + (i - at))
  {
    hide Sound, Entries;
    NodeParts(dir, below, live, p);
    EntryIsLive(dir, p, e);
    forall i: nat | at <= i < at + n ensures At(Node(dir, below), p, i)
      == At(below, dir.cells[p].item[e], off + (i - at)) {
      ThroughEntry(below, dir.cells[p].item, e, off + (i - at));
    }
  }

  /** `buf[lo..hi]` holds what the tree named by `p` reads from position `index` on. */
  ghost predicate Holds<T>(buf: array<T>, lo: nat, hi: nat, lv: Levels<T>, p: Ptr, index: nat)
    requires lo <= hi <= buf.Length
    reads buf
  {
    forall k: nat :: lo <= k < hi ==> Some(buf[k]) == At(lv, p, index + (k - lo))
  }

  /** Copies a run of positions into `buf[lo..hi]`. */
  method ReadImpl<T>(data: Table<seq<T>>, dirs: seq<Table<seq<Ptr>>>, buf: array<T>, lo: nat, hi: nat, p: Ptr,
                     index: nat, divisor: nat,
                     ghost live: multiset<Ptr>)
    requires Separate(data, dirs) && AllValid(data, dirs)
    requires Sound(LevelsOf(data, dirs), live) && p in live
    requires lo <= hi <= buf.Length
    requires divisor == Span(LevelsOf(data, dirs)) && index + (hi - lo) <= Size(LevelsOf(data, dirs))
    modifies buf
    ensures Holds(buf, lo, hi, LevelsOf(data, dirs), p, index)
    ensures forall k :: 0 <= k < lo || hi <= k < buf.Length ==> buf[k] == old(buf[k])
    decreases |dirs|, 1
  {
    hide Sound, At, Size, WellFormed, Height;
    SpanOfChild(LevelsOf(data, dirs));
    if dirs == [] {
      LeafParts(data.Value(), live, p);
      var page := data.GetItem(p);
      ghost var pages := data.Value();
      forall k | lo <= k < hi {
        buf[k] := page[index + (k - lo)];
      }
      LeafHolds(buf, lo, hi, pages, live, p, index);
    } else {
      assert dirs == [dirs[0]] + dirs[1..];
      ReadDir(dirs[0], data, dirs[1..], buf, lo, hi, p, index, divisor, live);
    }
  }

  lemma LeafHolds<T>(buf: array<T>, lo: nat, hi: nat, data: Slab<seq<T>>, live: multiset<Ptr>, p: Ptr, index: nat)
    requires Sound(Leaf(data), live) && p in live && lo <= hi <= buf.Length && index + (hi - lo) <= PAGE_SIZE
    requires forall k: nat :: lo <= k < hi ==> buf[k] == data.cells[p].item[index + (k - lo)]
    ensures Holds(buf, lo, hi, Leaf(data), p, index)
  {
  }

  method ReadDir<T>(dir: Table<seq<Ptr>>, data: Table<seq<T>>, next: seq<Table<seq<Ptr>>>, buf: array<T>, lo: nat,
                    hi: nat, p: Ptr, index: nat,
                    divisor: nat, ghost live: multiset<Ptr>)
    requires OnTop(dir, data, next)
    requires Sound(TreeOf(dir, data, next), live) && p in live
    requires lo <= hi <= buf.Length
    requires divisor == Size(LevelsOf(data, next)) && index + (hi - lo) <= PAGE_SIZE * divisor
    modifies buf
    ensures OnTop(dir, data, next)
    ensures Holds(buf, lo, hi, TreeOf(dir, data, next), p, index)
    ensures forall k :: 0 <= k < lo || hi <= k < buf.Length ==> buf[k] == old(buf[k])
    decreases |next|, 2
  {
    hide Sound, At, Size, WellFormed, Height, LevelsOf, AllValid, Separate, Start, From, To, Entry, PageOf, OffsetOf,
         DivCeil, Entries;
    ghost var top, below := dir.Value(), LevelsOf(data, next);
    NodeParts(top, below, live, p);
    var tables := dir.GetItem(p);
    var len := hi - lo;
    var firstPage := PageOf(index, divisor);
    var lastPage := DivCeil(index + len, divisor);
    var pageIndex := OffsetOf(index, divisor);
    CutAtStart(index, len, divisor, PAGE_SIZE, firstPage, lastPage, pageIndex);
    var amountOfPages := lastPage - firstPage;
    SpanOfChild(below);
    var i := 0;
    ghost var done := 0;
    while i < amountOfPages
      invariant 0 <= i <= amountOfPages && 0 <= done <= len
      invariant i < amountOfPages ==> done == From(i, divisor, pageIndex)
      invariant i == amountOfPages ==> done == len
      invariant OnTop(dir, data, next) && dir.Value() == top && LevelsOf(data, next) == below
      invariant Holds(buf, lo, lo + done, Node(top, below), p, index)
      invariant forall k :: 0 <= k < lo || hi <= k < buf.Length ==> buf[k] == old(buf[k])
    {
      CutAtEntry(below, index, len, i, firstPage, lastPage, pageIndex);
      var start := From(i, divisor, pageIndex);
      var end := To(i, divisor, pageIndex, len);
      var entry := Entry(i, pageIndex);
      RunStep(top, below, live, p, firstPage + i, index + start, entry, end - start);
      ReadImpl(data, next, buf, lo + start, lo + end, tables[firstPage + i], entry, divisor / PAGE_SIZE,
               Entries(top.cells));
      HoldsMore(buf, lo, lo + start, lo + end, Node(top, below), p, index, below, tables[firstPage + i], entry);
      done := end;
      i := i + 1;
    }
  }

  lemma HoldsMore<T>(buf: array<T>, lo: nat, mid: nat, hi: nat, lv: Levels<T>, p: Ptr, index: nat, below: Levels<T>,
                     c: Ptr, off: nat)
    requires lo <= mid <= hi <= buf.Length
    requires Holds(buf, lo, mid, lv, p, index) && Holds(buf, mid, hi, below, c, off)
    requires forall i: nat :: index + (mid - lo) <= i < index + (hi - lo) ==>
      At(lv, p, i) == At(below, c, off + (i - (index + (mid - lo))))
    ensures Holds(buf, lo, hi, lv, p, index)
  {
  }

  // ---------- The lazy iterator ----------

  /** The items the iterator over a run of positions yields. */
  ghost function IterRange<T>(lv: Levels<T>, live: multiset<Ptr>, p: Ptr, index: nat, len: nat): seq<T>
    requires Sound(lv, live) && p in live && index + len <= Size(lv)
    decreases lv, 1, 0
  {
    match lv
    case Leaf(data) => data.cells[p].item[index..index + len]
    case Node(dir, below) =>
      NodeParts(dir, below, live, p);
      CutAtStart(index, len, Size(below), PAGE_SIZE, PageOf(index, Size(below)), DivCeil(index + len, Size(below)),
                 OffsetOf(index, Size(below)));
      IterPages(dir, below, live, p, index, len, 0)
  }

  /** The items of the pages from number `i` on, one page chained to the next. */
  ghost function IterPages<T>(dir: Slab<seq<Ptr>>, below: Levels<T>, live: multiset<Ptr>, p: Ptr, index: nat, len: nat,
                              i: nat): seq<T>
    requires Sound(Node(dir, below), live) && p in live && index + len <= PAGE_SIZE * Size(below)
    requires PageOf(index, Size(below)) + i <= DivCeil(index + len, Size(below)) <= PAGE_SIZE
    decreases below, 2, DivCeil(index + len, Size(below)) - i
  {
    var divisor := Size(below);
    var firstPage := PageOf(index, divisor);
    var lastPage := DivCeil(index + len, divisor);
    var pageIndex := OffsetOf(index, divisor);
    if firstPage + i == lastPage then []
    else
      CutAtEntry(below, index, len, i, firstPage, lastPage, pageIndex);
      var entry := Entry(i, pageIndex);
      var lenLeft := len - From(i, divisor, pageIndex);
      RunStep(dir, below, live, p, firstPage + i, index + From(i, divisor, pageIndex), entry,
              To(i, divisor, pageIndex, len) - From(i, divisor, pageIndex));
      IterRange(below, Entries(dir.cells), dir.cells[p].item[firstPage + i], entry, Min(divisor - entry, lenLeft))
      + IterPages(dir, below, live, p, index, len, i + 1)
  }

  ghost predicate Yields<T>(items: seq<T>, lv: Levels<T>, p: Ptr, index: nat) {
    forall k :: 0 <= k < |items| ==> Some(items[k]) == At(lv, p, index + k)
  }

  /** The iterator yields the run in order, and nothing else. */
  lemma {:induction false} IterRangeReads<T>(lv: Levels<T>, live: multiset<Ptr>, p: Ptr, index: nat, len: nat)
    requires Sound(lv, live) && p in live && index + len <= Size(lv)
    ensures |IterRange(lv, live, p, index, len)| == len && Yields(IterRange(lv, live, p, index, len), lv, p, index)
    decreases lv, 1, 0
  {
    hide Sound, At, From, To, Entry, PageOf, OffsetOf, DivCeil, IterPages;
    IterRangeUnfolds(lv, live, p, index, len);
    if lv.Leaf? {
      LeafYields(lv.data, live, p, index, len);
    } else {
      IterPagesRead(lv.dir, lv.below, live, p, index, len, 0);
    }
  }

  lemma IterRangeUnfolds<T>(lv: Levels<T>, live: multiset<Ptr>, p: Ptr, index: nat, len: nat)
    requires Sound(lv, live) && p in live && index + len <= Size(lv)
    ensures lv.Leaf? ==> InUse(lv.data, p) && |lv.data.cells[p].item| == PAGE_SIZE
                         && IterRange(lv, live, p, index, len) == lv.data.cells[p].item[index..index + len]
    ensures lv.Node? ==>
      && PageOf(index, Size(lv.below)) <= DivCeil(index + len, Size(lv.below)) <= PAGE_SIZE
      && (PageOf(index, Size(lv.below)) == DivCeil(index + len, Size(lv.below)) ==> len == 0)
      && From(0, Size(lv.below), OffsetOf(index, Size(lv.below))) == 0
      && IterRange(lv, live, p, index, len) == IterPages(lv.dir, lv.below, live, p, index, len, 0)
  {
    hide At, From, To, Entry, PageOf, OffsetOf, DivCeil, IterPages;
    if lv.Node? {
      var d := Size(lv.below);
      CutAtStart(index, len, d, PAGE_SIZE, PageOf(index, d), DivCeil(index + len, d), OffsetOf(index, d));
    }
  }

  lemma LeafYields<T>(data: Slab<seq<T>>, live: multiset<Ptr>, p: Ptr, index: nat, len: nat)
    requires Sound(Leaf(data), live) && p in live && index + len <= PAGE_SIZE
    ensures Yields(data.cells[p].item[index..index + len], Leaf(data), p, index)
  {
  }

  lemma {:induction false} IterPagesRead<T>(dir: Slab<seq<Ptr>>, below: Levels<T>, live: multiset<Ptr>, p: Ptr,
                                            index: nat, len: nat, i: nat)
    requires Sound(Node(dir, below), live) && p in live && index + len <= PAGE_SIZE * Size(below)
    requires PageOf(index, Size(below)) + i <= DivCeil(index + len, Size(below)) <= PAGE_SIZE
    requires PageOf(index, Size(below)) == DivCeil(index + len, Size(below)) ==> len == 0
    ensures var r := IterPages(dir, below, live, p, index, len, i);
      var from := if PageOf(index, Size(below)) + i == DivCeil(index + len, Size(below)) then len
                  else From(i, Size(below), OffsetOf(index, Size(below)));
      |r| == len - from && Yields(r, Node(dir, below), p, index + from)
    decreases below, 2, DivCeil(index + len, Size(below)) - i
  {
    hide Sound, At, From, To, Entry, PageOf, OffsetOf, DivCeil, Start, Entries, Size, IterPages, IterRange, Yields;
    var d := Size(below);
    var first, last, pageIndex := PageOf(index, d), DivCeil(index + len, d), OffsetOf(index, d);
    IterPagesUnfolds(dir, below, live, p, index, len, i);
    if first + i == last {
      NothingYielded(Node(dir, below), p, index + len);
    } else {
      CutAtEntry(below, index, len, i, first, last, pageIndex);
      var entry, from, to := Entry(i, pageIndex), From(i, d, pageIndex), To(i, d, pageIndex, len);
      RunStep(dir, below, live, p, first + i, index + from, entry, to - from);
      var c := dir.cells[p].item[first + i];
      IterRangeReads(below, Entries(dir.cells), c, entry, to - from);
      IterPagesRead(dir, below, live, p, index, len, i + 1);
      var here, rest := IterRange(below, Entries(dir.cells), c, entry, to - from), IterPages(dir, below, live, p, index,
                                  len, i + 1);
      YieldsMore(here, rest, Node(dir, below), p, index + from, below, c, entry);
    }
  }

  lemma NothingYielded<T>(lv: Levels<T>, p: Ptr, index: nat)
    ensures Yields([], lv, p, index)
  {
  }

  lemma IterPagesUnfolds<T>(dir: Slab<seq<Ptr>>, below: Levels<T>, live: multiset<Ptr>, p: Ptr, index: nat, len: nat,
                            i: nat)
    requires Sound(Node(dir, below), live) && p in live && index + len <= PAGE_SIZE * Size(below)
    requires PageOf(index, Size(below)) + i <= DivCeil(index + len, Size(below)) <= PAGE_SIZE
    ensures var d := Size(below);
      var first, last, pageIndex := PageOf(index, d), DivCeil(index + len, d), OffsetOf(index, d);
      var from, to, entry := From(i, d, pageIndex), To(i, d, pageIndex, len), Entry(i, pageIndex);
      && (first + i == last ==> IterPages(dir, below, live, p, index, len, i) == [])
      && (first + i < last ==>
            && from <= to && entry + (to - from) <= d && InUse(dir, p) && first + i < |dir.cells[p].item|
            && dir.cells[p].item[first + i] in Entries(dir.cells) && Sound(below, Entries(dir.cells))
            && IterPages(dir, below, live, p, index, len, i)
                 == IterRange(below, Entries(dir.cells), dir.cells[p].item[first + i], entry, to - from)
                    + IterPages(dir, below, live, p, index, len, i + 1))
  {
    hide Sound, At, From, To, Entry, PageOf, OffsetOf, DivCeil, Start, Entries, Size, IterRange;
    var d := Size(below);
    var first, last, pageIndex := PageOf(index, d), DivCeil(index + len, d), OffsetOf(index, d);
    if first + i < last {
      CutAtEntry(below, index, len, i, first, last, pageIndex);
      RunStep(dir, below, live, p, first + i, index + From(i, d, pageIndex), Entry(i, pageIndex),
              To(i, d, pageIndex, len) - From(i, d, pageIndex));
      CutAtStart(index, len, d, PAGE_SIZE, first, last, pageIndex);
      CutLength(i, d, pageIndex, len);
    }
  }

  /** What the iterator takes from a page is the part of the run that falls in it. */
  lemma CutLength(i: nat, d: nat, pageIndex: nat, len: nat)
    requires pageIndex < d && From(i, d, pageIndex) <= len
    ensures Min(d - Entry(i, pageIndex), len - From(i, d, pageIndex))
      == To(i, d, pageIndex, len) - From(i, d, pageIndex)
  {
  }

  lemma YieldsMore<T>(here: seq<T>, rest: seq<T>, lv: Levels<T>, p: Ptr, at: nat, below: Levels<T>, c: Ptr, off: nat)
    requires Yields(here, below, c, off) && Yields(rest, lv, p, at + |here|)
    requires forall i: nat :: at <= i < at + |here| ==> At(lv, p, i) == At(below, c, off + (i - at))
    ensures Yields(here + rest, lv, p, at)
  {
  }
}
