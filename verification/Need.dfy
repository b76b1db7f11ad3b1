/** What a command takes of the 31-bit fields: how many new items each slab must hold, and how many
    new references each item. It is read off the state before the command. */
module Needs {
  import opened Options
  import opened Slabs
  import opened RadixTree
  import opened Rooms
  import opened Balances
  import opened Sharings
  import opened Chunks
  import opened Instances
  import opened Totals
  import opened Timelines
  import opened Storages
  import opened Heads
  import opened Commands

  /** Everything the allocator holds, and the timeline it stands for. */
  datatype State<V, T> = State(objs: Slab<V>, tree: Levels<T>, head: Head, snapshots: seq<Option<Snapshot>>,
                               model: Timeline<Contents<V, T>>)

  ghost predicate IsValid<V, T>(st: State<V, T>) {
    Models(st.objs, st.tree, st.head, st.snapshots, st.model, None, None)
  }

  /** Every slab takes `slots` more items, and every item `refs` more references. */
  ghost predicate HasRoom<V, T>(st: State<V, T>, slots: nat, refs: nat) {
    SlabFits(st.objs, slots, refs) && TreeFits(st.tree, slots, refs)
  }

  ghost predicate Grew<V, T>(a: State<V, T>, b: State<V, T>, slots: nat, refs: nat) {
    SlabGrew(a.objs, b.objs, slots, refs) && TreeGrew(a.tree, b.tree, slots, refs)
  }

  lemma GrewRefl<V, T>(st: State<V, T>, slots: nat, refs: nat)
    ensures Grew(st, st, slots, refs)
  {
    TreeGrewRefl(st.tree, slots, refs);
  }

  lemma GrewTrans<V, T>(a: State<V, T>, b: State<V, T>, c: State<V, T>, slots: nat, refs: nat, slots': nat, refs': nat)
    requires Grew(a, b, slots, refs) && Grew(b, c, slots', refs')
    ensures Grew(a, c, slots + slots', refs + refs')
  {
    TreeGrewTrans(a.tree, b.tree, c.tree, slots, refs, slots', refs');
  }

  lemma GrewMore<V, T>(a: State<V, T>, b: State<V, T>, slots: nat, refs: nat, slots': nat, refs': nat)
    requires Grew(a, b, slots, refs) && slots <= slots' && refs <= refs'
    ensures Grew(a, b, slots', refs')
  {
    TreeGrewMore(a.tree, b.tree, slots, refs, slots', refs');
  }

  lemma HasRoomFewer<V, T>(st: State<V, T>, slots: nat, refs: nat, slots': nat, refs': nat)
    requires HasRoom(st, slots, refs) && slots' <= slots && refs' <= refs
    ensures HasRoom(st, slots', refs')
  {
    FitsFewer(st.tree, slots, refs, slots', refs');
  }

  /** What is left of the room after something was taken. */
  lemma HasRoomAfter<V, T>(a: State<V, T>, b: State<V, T>, slots: nat, refs: nat, taken: nat, added: nat)
    requires HasRoom(a, taken + slots, added + refs) && Grew(a, b, taken, added)
    ensures HasRoom(b, slots, refs)
  {
    SlabFitsAfter(a.objs, b.objs, slots, refs, taken, added);
    FitsAfter(a.tree, b.tree, slots, refs, taken, added);
  }

  /** An empty allocator has all the room there is. */
  lemma {:induction false} EmptyHasRoom<T>(lv: Levels<T>, slots: nat, refs: nat)
    requires EmptyTables(lv) && slots <= LIMIT && refs < LIMIT
    ensures TreeFits(lv, slots, refs)
  {
    if lv.Node? {
      EmptyHasRoom(lv.below, slots, refs);
    }
  }

  // ---------- What one command takes ----------

  /** Largest number of references that a copy of snapshot `s` makes to one item. */
  ghost function CopyRefs(s: Snapshot): nat {
    Max(Most(ObjectPtrs(Some(s))), Most(ArrayPtrs(Some(s))))
  }

  /** The snapshot that HEAD reads from; a valid state has one. */
  function Held<V, T>(st: State<V, T>): Snapshot {
    if HasHead(st.head, st.snapshots) then Current(st.head, st.snapshots) else Snapshot([], [])
  }

  /** References that HEAD takes to become a copy of the snapshot it was checked out from. */
  ghost function HeadRefs<V, T>(st: State<V, T>): nat {
    if st.head.Dirty? then 0 else CopyRefs(Held(st))
  }

  /** Number of top-level pages of an array. */
  function PagesOf(height: nat, size: nat): nat {
    DivCeil(size, Power64(height + 1))
  }

  /** Pages that a write duplicates: those on its way that are shared, and all of them if HEAD first
      becomes a copy. A write out of bounds duplicates none. */
  function WritePages<V, T>(st: State<V, T>, id: nat, index: nat, len: nat): nat
  {
    var s := Held(st);
    if id >= |s.instances| || index + len > s.instances[id].size then 0
    else if st.head.Dirty? then SharedIn(st.tree, s.instances[id].pages, index, index + len)
    else TouchedIn(Height(st.tree), |s.instances[id].pages|, index, index + len)
  }

  /** Items that the command adds to a slab. */
  function SlotsFor<V, T>(st: State<V, T>, command: Command<V, T>): nat
  {
    var s := Held(st);
    match command
    case Insert(_) => 1
    case InsertArray(_, _) => 1
    case SetObject(id, _) =>
      if id >= |s.tablePtrs| then 0 else if st.head.Dirty? then ObjectCost(st.objs, s.tablePtrs[id]) else 1
    case SetItem(id, index, _) => WritePages(st, id, index, 1)
    case WriteItems(id, index, buf) => WritePages(st, id, index, |buf|)
    case ResetArray(_) => 0
    case MakeSnapshot => 0
    case DropSnapshot(_) => 0
    case Checkout(_) => 0
  }

  /** References that the command adds to an item. */
  ghost function RefsFor<V, T>(st: State<V, T>, command: Command<V, T>): nat
  {
    var s, copy := Held(st), HeadRefs(st);
    match command
    case Insert(_) => copy
    case InsertArray(_, size) => PAGE_SIZE + PagesOf(Height(st.tree), size) + copy
    case SetObject(_, _) => copy
    case SetItem(id, index, _) => copy + PAGE_SIZE * WritePages(st, id, index, 1)
    case WriteItems(id, index, buf) => copy + PAGE_SIZE * WritePages(st, id, index, |buf|)
    case ResetArray(id) =>
      copy + if id < |s.instances| then Changed(s.instances[id].pages, s.instances[id].resetPage) else 0
    case MakeSnapshot => CopyRefs(s)
    case DropSnapshot(_) => 0
    case Checkout(_) => 0
  }

  /** The command is sure to be carried out. */
  ghost predicate Fits<V, T>(st: State<V, T>, command: Command<V, T>)
  {
    HasRoom(st, SlotsFor(st, command), RefsFor(st, command))
  }

  /** The command took no more than it may. */
  ghost predicate Took<V, T>(a: State<V, T>, command: Command<V, T>, b: State<V, T>)
  {
    Grew(a, b, SlotsFor(a, command), RefsFor(a, command))
  }

  lemma CopyFits<V, T>(st: State<V, T>, s: Snapshot)
    ensures HasRoom(st, 0, CopyRefs(s)) ==>
      SlabCloneFits(st.objs, ObjectPtrs(Some(s))) && CloneFits(st.tree, ArrayPtrs(Some(s)))
  {
    hide ObjectPtrs, ArrayPtrs, SlabCloneFits, CloneFits, SlabFits, TreeFits, Most;
    if HasRoom(st, 0, CopyRefs(s)) {
      FitsClone(st.objs, 0, CopyRefs(s), ObjectPtrs(Some(s)));
      TreeFitsClone(st.tree, 0, CopyRefs(s), ArrayPtrs(Some(s)));
    }
  }

  lemma CopyGrew<V, T>(a: State<V, T>, b: State<V, T>, s: Snapshot)
    requires b.objs == SlabCloned(a.objs, ObjectPtrs(Some(s))) && b.tree == Cloned(a.tree, ArrayPtrs(Some(s)))
    ensures Grew(a, b, 0, CopyRefs(s))
  {
    hide ObjectPtrs, ArrayPtrs, SlabCloned, Cloned, TreeGrew, Most;
    SlabClonedGrew(a.objs, ObjectPtrs(Some(s)));
    ClonedGrew(a.tree, ArrayPtrs(Some(s)));
    TreeGrewMore(a.tree, b.tree, 0, Most(ArrayPtrs(Some(s))), 0, CopyRefs(s));
  }

  /** A command that changes HEAD has the room to make it ready. */
  lemma HeadFits<V, T>(st: State<V, T>, command: Command<V, T>)
    requires command.SetObject? || command.SetItem? || command.WriteItems? || command.ResetArray?
    ensures Fits(st, command) ==> HasRoom(st, 0, HeadRefs(st))
  {
    hide HasRoom, WritePages, Changed, HeadRefs, Held, ObjectCost;
    if Fits(st, command) {
      HasRoomFewer(st, SlotsFor(st, command), RefsFor(st, command), 0, HeadRefs(st));
    }
  }

  lemma SameHead<V, T>(a: State<V, T>, b: State<V, T>)
    requires a.head == b.head && a.snapshots == b.snapshots
    ensures Held(a) == Held(b) && HeadRefs(a) == HeadRefs(b)
  {
  }

  /** A new object, before HEAD is made ready for it. */
  lemma ObjectTook<V, T>(a: State<V, T>, b: State<V, T>, refs: nat)
    requires SlabGrew(a.objs, b.objs, 1, 0) && b.tree == a.tree
    ensures Grew(a, b, 1, 0)
    ensures HasRoom(a, 1, refs) ==> HasRoom(b, 0, refs)
  {
    hide SlabGrew, SlabFits, TreeGrew, TreeFits;
    TreeGrewRefl(a.tree, 1, 0);
    if HasRoom(a, 1, refs) {
      HasRoomAfter(a, b, 0, refs, 1, 0);
    }
  }

  lemma ObjectFits<V, T>(st: State<V, T>, slots: nat, refs: nat)
    requires WellFormed(st.objs)
    ensures HasRoom(st, slots, refs) && slots > 0 ==> HasSlot(st.objs)
  {
    if HasRoom(st, slots, refs) && slots > 0 {
      FitsHasSlot(st.objs, slots, refs);
    }
  }

  /** A new array, before HEAD is made ready for it. */
  lemma ArrayTook<V, T>(a: State<V, T>, b: State<V, T>, added: nat, refs: nat)
    requires b.objs == a.objs && TreeGrew(a.tree, b.tree, 1, added)
    ensures Grew(a, b, 1, added)
    ensures HasRoom(a, 1, added + refs) ==> HasRoom(b, 0, refs)
  {
    hide SlabFits, TreeGrew, TreeFits;
    SlabGrewRefl(a.objs);
    if HasRoom(a, 1, added + refs) {
      HasRoomAfter(a, b, 0, refs, 1, added);
    }
  }

  lemma ArrayFits<V, T>(st: State<V, T>, size: nat, refs: nat)
    ensures PagesOf(Height(st.tree), size) == DivCeil(size, Size(st.tree))
    ensures HasRoom(st, 1, PAGE_SIZE + PagesOf(Height(st.tree), size) + refs) ==>
      TreeFits(st.tree, 1, PAGE_SIZE + DivCeil(size, Size(st.tree)))
  {
    hide DivCeil, TreeFits, SlabFits;
    SizeIsPower(st.tree);
    var n := DivCeil(size, Size(st.tree));
    if HasRoom(st, 1, PAGE_SIZE + n + refs) {
      FitsFewer(st.tree, 1, PAGE_SIZE + n + refs, 1, PAGE_SIZE + n);
    }
  }

  /** Once HEAD is dirty, an object costs as much as was foreseen, or less. */
  lemma ObjectForeseen<V, T>(a: State<V, T>, b: State<V, T>, id: nat)
    requires Grew(a, b, 0, HeadRefs(a)) && WellFormed(b.objs) && id < |Held(a).tablePtrs|
    requires a.head.Dirty? ==> b.objs == a.objs
    ensures var cost, n := ObjectCost(b.objs, Held(a).tablePtrs[id]), if a.head.Dirty?
      then ObjectCost(a.objs, Held(a).tablePtrs[id]) else 1;
      cost <= n && (HasRoom(a, n, HeadRefs(a)) ==> cost == 0 || HasSlot(b.objs))
  {
    hide Grew, HasRoom, HeadRefs, Held, WellFormed;
    var n := if a.head.Dirty? then ObjectCost(a.objs, Held(a).tablePtrs[id]) else 1;
    ObjectFits(b, n, 0);
    if HasRoom(a, n, HeadRefs(a)) {
      HasRoomAfter(a, b, n, 0, 0, HeadRefs(a));
    }
  }

  lemma ObjectWriteTook<V, T>(a: State<V, T>, b: State<V, T>, c: State<V, T>, cost: nat, n: nat)
    requires Grew(a, b, 0, HeadRefs(a)) && SlabGrew(b.objs, c.objs, cost, 0) && c.tree == b.tree && cost <= n
    ensures Grew(a, c, n, HeadRefs(a))
  {
    hide TreeGrew, HeadRefs;
    TreeGrewRefl(b.tree, n, 0);
    assert Grew(b, c, n, 0);
    GrewTrans(a, b, c, 0, HeadRefs(a), n, 0);
  }

  /** Resetting an array. */
  lemma ResetForeseen<V, T>(a: State<V, T>, b: State<V, T>, n: nat)
    requires Grew(a, b, 0, HeadRefs(a))
    ensures HasRoom(a, 0, HeadRefs(a) + n) ==> TreeFits(b.tree, 0, n)
  {
    hide Grew, SlabFits, TreeFits, HeadRefs;
    if HasRoom(a, 0, HeadRefs(a) + n) {
      HasRoomAfter(a, b, 0, n, 0, HeadRefs(a));
    }
  }

  lemma ResetTook<V, T>(a: State<V, T>, b: State<V, T>, c: State<V, T>, n: nat)
    requires Grew(a, b, 0, HeadRefs(a)) && c.objs == b.objs && TreeGrew(b.tree, c.tree, 0, n)
    ensures Grew(a, c, 0, HeadRefs(a) + n)
  {
    hide TreeGrew, HeadRefs;
    assert Grew(b, c, 0, n);
    GrewTrans(a, b, c, 0, HeadRefs(a), 0, n);
  }

  /** Once HEAD is dirty, a write in bounds has as many pages to duplicate as was foreseen, or fewer. */
  lemma WriteForeseen<V, T>(a: State<V, T>, b: State<V, T>, live: multiset<Ptr>, id: nat, index: nat,
                            len: nat) returns (pages: nat)
    requires Grew(a, b, 0, HeadRefs(a)) && Sound(b.tree, live) && Height(b.tree) == Height(a.tree)
    requires a.head.Dirty? ==> b.tree == a.tree
    requires id < |Held(a).instances| && index + len <= Held(a).instances[id].size
    ensures pages == SharedIn(b.tree, Held(a).instances[id].pages, index, index + len)
    ensures pages <= WritePages(a, id, index, len)
    ensures var n := WritePages(a, id, index, len);
      HasRoom(a, n, HeadRefs(a) + PAGE_SIZE * n) ==> PagesFit(b.tree, pages)
  {
    hide Sound, SharedIn, TouchedIn, Grew, TreeFits, SlabFits, Height, HeadRefs, Held;
    SharedInAtMost(b.tree, live, Held(a).instances[id].pages, index, index + len);
    pages := SharedIn(b.tree, Held(a).instances[id].pages, index, index + len);
    var n := WritePages(a, id, index, len);
    if HasRoom(a, n, HeadRefs(a) + PAGE_SIZE * n) {
      HasRoomAfter(a, b, n, PAGE_SIZE * n, 0, HeadRefs(a));
      HasRoomFewer(b, n, PAGE_SIZE * n, pages, PAGE_SIZE * pages);
    }
  }

  lemma OutOfBounds<V, T>(a: State<V, T>, b: State<V, T>, id: nat, index: nat, len: nat)
    requires Grew(a, b, 0, HeadRefs(a))
    requires id >= |Held(a).instances| || index + len > Held(a).instances[id].size
    ensures WritePages(a, id, index, len) == 0
  {
  }

  lemma WriteTook<V, T>(a: State<V, T>, b: State<V, T>, c: State<V, T>, pages: nat, n: nat)
    requires Grew(a, b, 0, HeadRefs(a)) && c.objs == b.objs && PagesPaid(b.tree, c.tree, pages) && pages <= n
    ensures Grew(a, c, n, HeadRefs(a) + PAGE_SIZE * n) && Balance(c.tree) == Balance(b.tree)
  {
    hide TreeGrew, HeadRefs;
    TreeGrewMore(b.tree, c.tree, pages, PAGE_SIZE * pages, n, PAGE_SIZE * n);
    assert Grew(b, c, n, PAGE_SIZE * n);
    GrewTrans(a, b, c, 0, HeadRefs(a), n, PAGE_SIZE * n);
  }

  // ---------- What whole runs take ----------

  /** What a command does to the state, as far as its client can tell. */
  ghost predicate Stepped<V, T>(a: State<V, T>, command: Command<V, T>, b: State<V, T>) {
    && IsValid(b) && Height(b.tree) == Height(a.tree)
    && b.model == Step(a.model, command) && Took(a, command, b)
  }

  /** The states of a run, from the one it starts in, with one more after each command. */
  ghost predicate IsRun<V, T>(states: seq<State<V, T>>, commands: seq<Command<V, T>>) {
    && |states| == |commands| + 1
    && forall i :: 0 <= i < |commands| ==> Stepped(states[i], commands[i], states[i + 1])
  }

  /** Number of pages that the arrays point to, counting each pointer. */
  function PointersOf<T>(height: nat, arrays: seq<ArrayValue<T>>): nat {
    if arrays == [] then 0
    else PointersOf(height, arrays[..|arrays| - 1]) + PagesOf(height, |arrays[|arrays| - 1].items|) + 1
  }

  /** The same bounds, from the plain contents alone. */
  function CopyBound<V, T>(height: nat, c: Contents<V, T>): nat {
    Max(|c.objects|, PointersOf(height, c.arrays))
  }

  function HeadBound<V, T>(height: nat, m: Timeline<Contents<V, T>>): nat {
    if m.checkedOut.Some? then CopyBound(height, m.head) else 0
  }

  function WriteBound<V, T>(height: nat, c: Contents<V, T>, id: nat, index: nat, len: nat): nat {
    if id >= |c.arrays| || index + len > |c.arrays[id].items| then 0
    else TouchedIn(height, PagesOf(height, |c.arrays[id].items|), index, index + len)
  }

  function SlotsBound<V, T>(height: nat, m: Timeline<Contents<V, T>>, command: Command<V, T>): nat {
    match command
    case Insert(_) => 1
    case InsertArray(_, _) => 1
    case SetObject(id, _) => if id < |m.head.objects| then 1 else 0
    case SetItem(id, index, _) => WriteBound(height, m.head, id, index, 1)
    case WriteItems(id, index, buf) => WriteBound(height, m.head, id, index, |buf|)
    case ResetArray(_) => 0
    case MakeSnapshot => 0
    case DropSnapshot(_) => 0
    case Checkout(_) => 0
  }

  function RefsBound<V, T>(height: nat, m: Timeline<Contents<V, T>>, command: Command<V, T>): nat {
    var copy := HeadBound(height, m);
    match command
    case Insert(_) => copy
    case InsertArray(_, size) => PAGE_SIZE + PagesOf(height, size) + copy
    case SetObject(_, _) => copy
    case SetItem(id, index, _) => copy + PAGE_SIZE * WriteBound(height, m.head, id, index, 1)
    case WriteItems(id, index, buf) => copy + PAGE_SIZE * WriteBound(height, m.head, id, index, |buf|)
    case ResetArray(id) => copy + if id < |m.head.arrays| then PagesOf(height, |m.head.arrays[id].items|) else 0
    case MakeSnapshot => CopyBound(height, m.head)
    case DropSnapshot(_) => 0
    case Checkout(_) => 0
  }

  /** Items that a run adds to a slab, at most. */
  function RunSlots<V, T>(height: nat, m: Timeline<Contents<V, T>>, commands: seq<Command<V, T>>): nat {
    if commands == [] then 0
    else
      var n := |commands| - 1;
      RunSlots(height, m, commands[..n]) + SlotsBound(height, Run(m, commands[..n]), commands[n])
  }

  /** References that a run adds to an item, at most. */
  function RunRefs<V, T>(height: nat, m: Timeline<Contents<V, T>>, commands: seq<Command<V, T>>): nat {
    if commands == [] then 0
    else
      var n := |commands| - 1;
      RunRefs(height, m, commands[..n]) + RefsBound(height, Run(m, commands[..n]), commands[n])
  }

  // ---------- The bounds hold ----------

  lemma {:induction false} PointersOfInstances<T>(height: nat, instances: seq<Instance>, arrays: seq<ArrayValue<T>>)
    requires |instances| == |arrays|
    requires forall i :: 0 <= i < |arrays| ==> |instances[i].pages| == PagesOf(height, |arrays[i].items|)
    ensures |Total(instances, PtrsOf)| == PointersOf(height, arrays)
  {
    if instances != [] {
      var n := |arrays| - 1;
      PointersOfInstances(height, instances[..n], arrays[..n]);
      assert |PtrsOf(instances[n])| == |instances[n].pages| + 1;
    }
  }

  /** The pointers of a snapshot are as many as its contents say. */
  lemma CopyWithin<V, T>(objs: Slab<V>, tree: Levels<T>, s: Snapshot, c: Contents<V, T>)
    requires Represents(objs, tree, s, c)
    ensures CopyRefs(s) <= CopyBound(Height(tree), c)
    ensures forall i :: 0 <= i < |c.arrays| ==>
      |s.instances[i].pages| == PagesOf(Height(tree), |c.arrays[i].items|) && s.instances[i].size == |c.arrays[i].items|
  {
    hide At, Through, DivCeil, Power64, Total, ItemAt, Size, Height, Most;
    SizeIsPower(tree);
    forall i | 0 <= i < |c.arrays|
      ensures
        && |s.instances[i].pages| == PagesOf(Height(tree), |c.arrays[i].items|)
        && s.instances[i].size == |c.arrays[i].items|
    {
      assert StandsFor(tree, s.instances[i], c.arrays[i]);
    }
    PointersOfInstances(Height(tree), s.instances, c.arrays);
  }

  lemma {:induction false} ChangedAtMost(pages: seq<Ptr>, resetPage: Ptr)
    ensures Changed(pages, resetPage) <= |pages|
  {
    if pages != [] {
      ChangedAtMost(pages[1..], resetPage);
    }
  }

  lemma WriteWithin<V, T>(st: State<V, T>, id: nat, index: nat, len: nat)
    requires IsValid(st)
    ensures WritePages(st, id, index, len) <= WriteBound(Height(st.tree), st.model.head, id, index, len)
  {
    hide Consistent, Sound, Covers, WellFormed, ItemAt, StandsFor, LiveObjects, LiveArrays, ObjectPtrs, ArrayPtrs,
         CopyRefs,
         CopyBound, Height, SharedIn, TouchedIn, PagesOf;
    HeadReads(st.objs, st.tree, st.head, st.snapshots, st.model, None, None);
    var s := Current(st.head, st.snapshots);
    CopyWithin(st.objs, st.tree, s, st.model.head);
    if id < |s.instances| {
      SharedInAtMost(st.tree, LiveArrays(st.head, st.snapshots, None), s.instances[id].pages, index, index + len);
    }
  }

  /** A command takes no more than the plain contents say. */
  lemma NeedWithin<V, T>(st: State<V, T>, command: Command<V, T>)
    requires IsValid(st)
    ensures SlotsFor(st, command) <= SlotsBound(Height(st.tree), st.model, command)
    ensures RefsFor(st, command) <= RefsBound(Height(st.tree), st.model, command)
  {
    hide Consistent, Sound, Covers, WellFormed, ItemAt, StandsFor, LiveObjects, LiveArrays, ObjectPtrs, ArrayPtrs,
         CopyRefs,
         CopyBound, Height, WritePages, WriteBound, PagesOf, Changed;
    HeadReads(st.objs, st.tree, st.head, st.snapshots, st.model, None, None);
    var s := Current(st.head, st.snapshots);
    CopyWithin(st.objs, st.tree, s, st.model.head);
    match command
    case SetItem(id, index, _) => WriteWithin(st, id, index, 1);
    case WriteItems(id, index, buf) => WriteWithin(st, id, index, |buf|);
    case ResetArray(id) =>
      if id < |s.instances| {
        ChangedAtMost(s.instances[id].pages, s.instances[id].resetPage);
      }
    case _ =>
  }

  /** A run takes no more than the plain timeline says. */
  lemma {:induction false} RunWithin<V, T>(states: seq<State<V, T>>, commands: seq<Command<V, T>>)
    requires IsRun(states, commands) && IsValid(states[0])
    ensures var a, b := states[0], states[|commands|];
      && IsValid(b) && Height(b.tree) == Height(a.tree) && b.model == Run(a.model, commands)
      && Grew(a, b, RunSlots(Height(a.tree), a.model, commands), RunRefs(Height(a.tree), a.model, commands))
    decreases |commands|
  {
    hide IsValid, Step, SlotsBound, RefsBound, SlotsFor, RefsFor, Grew;
    var a := states[0];
    if commands == [] {
      GrewRefl(a, 0, 0);
    } else {
      var n := |commands| - 1;
      var b, c := states[n], states[n + 1];
      assert Stepped(b, commands[n], c);
      RunWithin(states[..n + 1], commands[..n]);
      NeedWithin(b, commands[n]);
      var height := Height(a.tree);
      var slots, refs := SlotsBound(height, b.model, commands[n]), RefsBound(height, b.model, commands[n]);
      GrewMore(b, c, SlotsFor(b, commands[n]), RefsFor(b, commands[n]), slots, refs);
      GrewTrans(a, b, c, RunSlots(height, a.model, commands[..n]), RunRefs(height, a.model, commands[..n]), slots,
                refs);
    }
  }

  lemma {:induction false} RunPrefix<V, T>(height: nat, m: Timeline<Contents<V, T>>, commands: seq<Command<V, T>>,
                                           n: nat)
    requires n <= |commands|
    ensures RunSlots(height, m, commands[..n]) <= RunSlots(height, m, commands)
    ensures RunRefs(height, m, commands[..n]) <= RunRefs(height, m, commands)
    decreases |commands|
  {
    hide SlotsBound, RefsBound;
    if n < |commands| {
      RunPrefix(height, m, commands[..|commands| - 1], n);
      assert commands[..|commands| - 1][..n] == commands[..n];
    } else {
      assert commands[..n] == commands;
    }
  }

  /** A state with room for what a run takes in all has room for each of its commands when its turn comes. */
  lemma RunFits<V, T>(states: seq<State<V, T>>, commands: seq<Command<V, T>>, n: nat)
    requires n < |commands| && IsRun(states, commands[..n]) && IsValid(states[0])
    requires var a := states[0];
      HasRoom(a, RunSlots(Height(a.tree), a.model, commands), RunRefs(Height(a.tree), a.model, commands))
    ensures Fits(states[n], commands[n])
  {
    hide IsValid, IsRun, Step, SlotsBound, RefsBound, SlotsFor, RefsFor, Grew, HasRoom;
    RunLength(states, commands[..n]);
    RunWithin(states, commands[..n]);
    var a, b := states[0], states[n];
    NeedWithin(b, commands[n]);
    var height := Height(a.tree);
    RunPrefix(height, a.model, commands, n + 1);
    assert commands[..n + 1][..n] == commands[..n];
    var slots, refs := SlotsBound(height, b.model, commands[n]), RefsBound(height, b.model, commands[n]);
    HasRoomFewer(a, RunSlots(height, a.model, commands), RunRefs(height, a.model, commands),
                 RunSlots(height, a.model, commands[..n]) + slots, RunRefs(height, a.model, commands[..n]) + refs);
    HasRoomAfter(a, b, slots, refs, RunSlots(height, a.model, commands[..n]), RunRefs(height, a.model, commands[..n]));
    HasRoomFewer(b, slots, refs, SlotsFor(b, commands[n]), RefsFor(b, commands[n]));
  }

  lemma RunLength<V, T>(states: seq<State<V, T>>, commands: seq<Command<V, T>>)
    requires IsRun(states, commands)
    ensures |states| == |commands| + 1
  {
  }

  // ---------- Runs without arrays ----------

  predicate OnObjects<V, T>(command: Command<V, T>) {
    command.Insert? || command.SetObject? || command.MakeSnapshot? || command.DropSnapshot? || command.Checkout?
  }

  /** HEAD and all snapshots have at most `n` objects and no arrays. */
  ghost predicate SmallObjects<V, T>(m: Timeline<Contents<V, T>>, n: nat) {
    && |m.head.objects| <= n && m.head.arrays == []
    && forall k :: 0 <= k < |m.snapshots| && m.snapshots[k].Some? ==>
         |m.snapshots[k].value.objects| <= n && m.snapshots[k].value.arrays == []
  }

  /** 0 + 1 + ... + (n - 1) */
  function SumBelow(n: nat): nat {
    if n == 0 then 0 else SumBelow(n - 1) + (n - 1)
  }

  /** A run of `n` commands that creates no arrays takes at most `n` slots, and for each command as many
      references as there were commands before it. */
  lemma {:induction false} ObjectRunTakes<V, T>(height: nat, commands: seq<Command<V, T>>)
    requires forall c :: c in commands ==> OnObjects(c)
    ensures var empty, n := Timeline(Contents([], []), None, []), |commands|;
      && SmallObjects(Run(empty, commands), n)
      && RunSlots(height, empty, commands) <= n && RunRefs(height, empty, commands) <= SumBelow(n)
  {
    hide PagesOf, WriteBound, Step, SmallObjects, RefsBound, SlotsBound;
    if commands == [] {
      NoObjects<V, T>();
    } else {
      var n := |commands| - 1;
      assert commands[n] in commands && forall c :: c in commands[..n] ==> c in commands;
      ObjectRunTakes(height, commands[..n]);
      OneObjectCommand(height, Run(Timeline(Contents([], []), None, []), commands[..n]), commands[n], n);
    }
  }

  lemma NoObjects<V, T>()
    ensures SmallObjects<V, T>(Timeline(Contents([], []), None, []), 0)
  {
  }

  lemma OneObjectCommand<V, T>(height: nat, m: Timeline<Contents<V, T>>, command: Command<V, T>, n: nat)
    requires OnObjects(command) && SmallObjects(m, n)
    ensures SmallObjects(Step(m, command), n + 1)
    ensures SlotsBound(height, m, command) <= 1 && RefsBound(height, m, command) <= n
  {
    hide PagesOf, WriteBound;
  }

  lemma ObjectRunFits<V, T>(height: nat, commands: seq<Command<V, T>>)
    requires |commands| <= 65536 && forall c :: c in commands ==> OnObjects(c)
    ensures var empty := Timeline(Contents([], []), None, []);
      RunSlots(height, empty, commands) <= LIMIT && RunRefs(height, empty, commands) < LIMIT
  {
    hide RunSlots, RunRefs, Run, SumBelow;
    ObjectRunTakes(height, commands);
    SumBelowMore(|commands|, 65536);
    SumBelowIs(65536);
  }

  lemma {:induction false} SumBelowMore(n: nat, m: nat)
    requires n <= m
    ensures SumBelow(n) <= SumBelow(m)
  {
    if n < m {
      SumBelowMore(n, m - 1);
    }
  }

  lemma {:induction false} SumBelowIs(n: nat)
    ensures 2 * SumBelow(n) == n * (n - 1)
  {
    if n > 0 {
      SumBelowIs(n - 1);
      assert (n - 1) * (n - 2) + 2 * (n - 1) == (n - 1) * n;
    }
  }
}
